/** When a tracked warm run loses its volume, exactly: a commit's late release meets a
    Destroy that is still waiting for the removal of the container. */
module LifecycleLosses {
  import opened Lifecycle
  import opened LifecycleSafety
  import opened LifecycleTheorems

  /** A Destroy holds the run, and puts it back should the removal fail. */
  ghost predicate Removing(threads: map<nat, Thread>, id: string) {
    exists u :: u in threads && threads[u] == Destroying(id, Remove)
  }

  /** The run is tracked, or may be again. */
  ghost predicate Recoverable(l: Ledger, id: string) {
    id in l.tracked || Removing(l.threads, id)
  }

  /** A warm run that is or may be tracked, and has no volume. */
  ghost predicate VolumeLost(l: Ledger, id: string) {
    SpecOf(l.specs, id).warm && Recoverable(l, id) && id !in l.res.volumes
  }

  // ----- Runs being created -----

  predicate Creates(th: Thread, id: string) {
    th.Creating? && th.id == id
  }

  ghost predicate BeingCreated(threads: map<nat, Thread>, id: string) {
    exists t :: t in threads && Creates(threads[t], id)
  }

  /** No commit has ever been asked for on a run still being created. */
  ghost predicate FreshOk(l: Ledger) {
    forall id | BeingCreated(l.threads, id) :: !Late(l.threads, id) && id !in l.res.lost
  }

  /** What any one event does to one run's place. */
  lemma ThreadsAfter(l: Ledger, e: Event)
    ensures Apply(l, e).threads - {e.t} == l.threads - {e.t}
  {
  }

  lemma CreatorsAfter(l: Ledger, e: Event, id: string)
    requires BeingCreated(Apply(l, e).threads, id)
    ensures BeingCreated(l.threads, id) || (e.Create? && e.id == id && id !in l.specs)
  {
    var l' := Apply(l, e);
    ThreadsAfter(l, e);
    var u :| u in l'.threads && Creates(l'.threads[u], id);
    if u != e.t {
      Still(l'.threads, l.threads, e.t, u);
    } else {
      CreatorMoves(l, e, id);
    }
  }

  lemma CreatorMoves(l: Ledger, e: Event, id: string)
    requires e.t in Apply(l, e).threads && Creates(Apply(l, e).threads[e.t], id)
    ensures (e.t in l.threads && Creates(l.threads[e.t], id)) || (e.Create? && e.id == id && id !in l.specs)
  {
  }

  lemma LateAfter(l: Ledger, e: Event, id: string)
    requires Late(Apply(l, e).threads, id)
    ensures Late(l.threads, id) || (e.CommitWarm? && e.id == id && id in l.tracked)
  {
    var l' := Apply(l, e);
    ThreadsAfter(l, e);
    var u :| u in l'.threads && LateOn(l'.threads[u], id);
    if u != e.t {
      Still(l'.threads, l.threads, e.t, u);
    } else {
      CommitterMoves(l, e, id);
    }
  }

  lemma CommitterMoves(l: Ledger, e: Event, id: string)
    requires e.t in Apply(l, e).threads && LateOn(Apply(l, e).threads[e.t], id)
    ensures (e.t in l.threads && LateOn(l.threads[e.t], id)) || (e.CommitWarm? && e.id == id && id in l.tracked)
  {
  }

  /** A volume is released by a commit that is under way. */
  lemma LostAfter(l: Ledger, e: Event, id: string)
    requires id !in l.res.lost && id in Apply(l, e).res.lost
    ensures e.Step? && e.t in l.threads && l.threads[e.t] == Committing(id, LateRelease) && Count(l.res.marks, id) == 0
    ensures Late(l.threads, id)
  {
    LostBy(l.threads[e.t], l.specs, l.tracked, l.res, e.ok, id);
    assert LateOn(l.threads[e.t], id);
  }

  lemma LostBy(th: Thread, specs: map<string, Spec>, tracked: set<string>, res: Res, ok: bool, id: string)
    requires Known(th, specs) && id !in res.lost && id in Next(th, specs, tracked, res, ok).res.lost
    ensures th == Committing(id, LateRelease) && Count(res.marks, id) == 0
  {
  }

  lemma FreshStays(l: Ledger, e: Event)
    requires Inv(l) && FreshOk(l)
    ensures FreshOk(Apply(l, e))
  {
    var l' := Apply(l, e);
    forall id | BeingCreated(l'.threads, id) ensures !Late(l'.threads, id) && id !in l'.res.lost {
      CreatorsAfter(l, e, id);
      NotYetLate(l, id);
      if Late(l'.threads, id) {
        LateAfter(l, e, id);
      }
      if id in l'.res.lost {
        LostAfter(l, e, id);
      }
    }
  }

  lemma NotYetLate(l: Ledger, id: string)
    requires Inv(l) && FreshOk(l) && (BeingCreated(l.threads, id) || id !in l.specs)
    ensures !Late(l.threads, id) && id !in l.res.lost && id !in l.tracked
  {
    if id !in l.specs {
      forall u | u in l.threads ensures !LateOn(l.threads[u], id) {
        assert Known(l.threads[u], l.specs);
      }
    } else {
      var t :| t in l.threads && Creates(l.threads[t], id);
      assert Owns(l.threads[t], id);
    }
  }

  lemma {:induction false} FreshForever(l: Ledger, es: seq<Event>)
    requires Inv(l) && FreshOk(l)
    ensures FreshOk(Run(l, es)) && Inv(Run(l, es))
    decreases |es|
  {
    if es != [] {
      ApplyKeeps(l, es[0]);
      FreshStays(l, es[0]);
      FreshForever(Apply(l, es[0]), es[1..]);
    }
  }

  lemma ReachableFresh(es: seq<Event>)
    ensures Inv(Run(EMPTY, es)) && FreshOk(Run(EMPTY, es))
  {
    EmptyKeeps();
    FreshForever(EMPTY, es);
  }

  // ----- The step that loses a volume -----

  /** Whoever may track the run again owns all of it. */
  lemma RecoverableHoldsAll(l: Ledger, id: string)
    requires Inv(l) && Recoverable(l, id)
    ensures id in l.specs && HoldingOf(l.tracked, l.threads, id) == ALL
    ensures SpecOf(l.specs, id).warm ==> (id in l.res.volumes <==> id !in l.res.lost)
  {
    if id !in l.tracked {
      var u :| u in l.threads && l.threads[u] == Destroying(id, Remove);
      assert Known(l.threads[u], l.specs);
      HoldingIs(l.tracked, l.threads, u, id);
    }
    assert Fits(l.res, SpecOf(l.specs, id), id, HoldingOf(l.tracked, l.threads, id), Late(l.threads, id));
  }

  /** How a run becomes recoverable: it is created. */
  lemma RecoverableAfter(l: Ledger, e: Event, id: string)
    requires Recoverable(Apply(l, e), id)
    ensures Recoverable(l, id) || BeingCreated(l.threads, id)
  {
    var l' := Apply(l, e);
    ThreadsAfter(l, e);
    if id in l'.tracked && id !in l.tracked {
      Tracks(l, e, id);
    } else if id !in l'.tracked {
      var u :| u in l'.threads && l'.threads[u] == Destroying(id, Remove);
      if u != e.t {
        Still(l'.threads, l.threads, e.t, u);
      } else {
        RemoverMoves(l, e, id);
      }
    }
  }

  lemma Tracks(l: Ledger, e: Event, id: string)
    requires id in Apply(l, e).tracked && id !in l.tracked
    ensures e.t in l.threads && (Creates(l.threads[e.t], id) || l.threads[e.t] == Destroying(id, Remove))
  {
  }

  lemma RemoverMoves(l: Ledger, e: Event, id: string)
    requires e.t in Apply(l, e).threads && Apply(l, e).threads[e.t] == Destroying(id, Remove)
    ensures (e.t in l.threads && l.threads[e.t] == Destroying(id, Remove)) || id in l.tracked
  {
  }

  /** A commit's step takes no run anywhere. */
  lemma CommitMovesNobody(l: Ledger, t: nat, ok: bool, id: string)
    requires t in l.threads && l.threads[t].Committing?
    ensures Apply(l, Step(t, ok)).tracked == l.tracked && Apply(l, Step(t, ok)).specs == l.specs
    ensures Recoverable(l, id) ==> Recoverable(Apply(l, Step(t, ok)), id)
  {
    var l' := Apply(l, Step(t, ok));
    if u :| u in l.threads && l.threads[u] == Destroying(id, Remove) {
      ThreadsAfter(l, Step(t, ok));
      Still(l.threads, l'.threads, t, u);
    }
  }

  /** A warm run that is or may be tracked loses its volume at exactly one kind of step: a
      commit whose look-up missed the run lets go of the volume, no other commit holds it,
      and the run is not gone, but tracked again or with a Destroy that awaits the removal. */
  lemma VolumeLostIff(es: seq<Event>, e: Event, id: string)
    requires !VolumeLost(Run(EMPTY, es), id)
    ensures var l := Run(EMPTY, es);
            VolumeLost(Apply(l, e), id) <==>
              && e.Step? && e.t in l.threads && l.threads[e.t] == Committing(id, LateRelease)
              && Count(l.res.marks, id) == 0 && SpecOf(l.specs, id).warm && Recoverable(l, id)
  {
    ReachableFresh(es);
    var l := Run(EMPTY, es);
    ApplyKeeps(l, e);
    if VolumeLost(Apply(l, e), id) {
      LossNeeds(l, e, id);
    }
    if e.Step? && e.t in l.threads && l.threads[e.t] == Committing(id, LateRelease)
       && Count(l.res.marks, id) == 0 && SpecOf(l.specs, id).warm && Recoverable(l, id) {
      CommitMovesNobody(l, e.t, e.ok, id);
    }
  }

  lemma LossNeeds(l: Ledger, e: Event, id: string)
    requires Inv(l) && FreshOk(l) && Inv(Apply(l, e)) && !VolumeLost(l, id) && VolumeLost(Apply(l, e), id)
    ensures e.Step? && e.t in l.threads && l.threads[e.t] == Committing(id, LateRelease)
    ensures Count(l.res.marks, id) == 0 && SpecOf(l.specs, id).warm && Recoverable(l, id)
  {
    RecoverableHoldsAll(Apply(l, e), id);
    RecoverableAfter(l, e, id);
    if Recoverable(l, id) {
      RecoverableHoldsAll(l, id);
      SpecStays(l, e, id);
    } else {
      NotYetLate(l, id);
    }
    LostAfter(l, e, id);
  }

  lemma SpecStays(l: Ledger, e: Event, id: string)
    requires id in l.specs
    ensures SpecOf(Apply(l, e).specs, id) == SpecOf(l.specs, id)
  {
  }

  // ----- Which late releases do harm -----

  /** The run has been destroyed, reaped or never became one. */
  ghost predicate GoneForGood(l: Ledger, id: string) {
    id in l.specs && !Recoverable(l, id) && !BeingCreated(l.threads, id)
  }

  lemma GoneStays(l: Ledger, e: Event, id: string)
    requires GoneForGood(l, id)
    ensures GoneForGood(Apply(l, e), id)
  {
    if Recoverable(Apply(l, e), id) {
      RecoverableAfter(l, e, id);
    }
    if BeingCreated(Apply(l, e).threads, id) {
      CreatorsAfter(l, e, id);
    }
  }

  lemma {:induction false} GoneForever(l: Ledger, es: seq<Event>, id: string)
    requires GoneForGood(l, id)
    ensures id !in Run(l, es).tracked
    decreases |es|
  {
    if es != [] {
      GoneStays(l, es[0], id);
      GoneForever(Apply(l, es[0]), es[1..], id);
    }
  }

  ghost predicate ComesBackWithoutVolume(l: Ledger, id: string) {
    exists more :: id in Run(l, more).tracked && id !in Run(l, more).res.volumes
  }

  ghost predicate ComesBack(l: Ledger, id: string) {
    exists more :: id in Run(l, more).tracked
  }

  /** A commit's run was tracked once, so it is not being created. */
  lemma CommitsAreNotNew(l: Ledger, t: nat, id: string)
    requires Inv(l) && FreshOk(l) && t in l.threads && LateOn(l.threads[t], id)
    ensures id in l.specs && !BeingCreated(l.threads, id)
  {
    assert Known(l.threads[t], l.specs);
  }

  lemma PutBack(l: Ledger, id: string)
    requires Recoverable(l, id) && id in l.specs
    ensures ComesBack(l, id)
    ensures id !in l.res.volumes ==> ComesBackWithoutVolume(l, id)
  {
    if id in l.tracked {
      assert Run(l, []) == l;
    } else {
      var u :| u in l.threads && l.threads[u] == Destroying(id, Remove);
      PutBackBy(l, u, id);
    }
  }

  lemma PutBackBy(l: Ledger, u: nat, id: string)
    requires u in l.threads && l.threads[u] == Destroying(id, Remove) && id in l.specs
    ensures ComesBack(l, id)
    ensures id !in l.res.volumes ==> ComesBackWithoutVolume(l, id)
  {
    var l' := Apply(l, Step(u, false));
    assert Run(l, [Step(u, false)]) == l' by {
      assert [Step(u, false)][1..] == [] && Run(l', []) == l';
    }
    assert id in l'.tracked && l'.res == l.res;
  }

  /** A late release of a volume nobody else holds does harm if and only if the run is
      tracked, or a Destroy awaits its removal: then, and only then, can it be tracked
      again without its volume. */
  lemma LateReleaseHarmsIff(es: seq<Event>, t: nat, id: string)
    requires var l := Run(EMPTY, es);
             t in l.threads && l.threads[t] == Committing(id, LateRelease) && Count(l.res.marks, id) == 0
    ensures var l := Run(EMPTY, es);
            ComesBackWithoutVolume(Apply(l, Step(t, true)), id) <==> id in l.tracked || Removing(l.threads, id)
  {
    ReachableFresh(es);
    var l := Run(EMPTY, es);
    var l' := Apply(l, Step(t, true));
    CommitsAreNotNew(l, t, id);
    CommitMovesNobody(l, t, true, id);
    if Recoverable(l, id) {
      PutBack(l', id);
    } else {
      assert GoneForGood(l, id);
      GoneStays(l, Step(t, true), id);
      forall more ensures id !in Run(l', more).tracked {
        GoneForever(l', more, id);
      }
    }
  }

  /** A commit's look-up is wrong about its run, which it takes for gone, if and only if a
      Destroy awaits the removal of the run's container at that moment. */
  lemma LookUpWrongIff(es: seq<Event>, t: nat, ok: bool, id: string)
    requires var l := Run(EMPTY, es); t in l.threads && l.threads[t] == Committing(id, Recheck)
    ensures var l := Run(EMPTY, es);
            var l' := Apply(l, Step(t, ok));
            t in l'.threads && ComesBack(l', id) <==> Removing(l.threads, id)
  {
    ReachableFresh(es);
    var l := Run(EMPTY, es);
    var l' := Apply(l, Step(t, ok));
    CommitsAreNotNew(l, t, id);
    CommitMovesNobody(l, t, ok, id);
    if Removing(l.threads, id) {
      RemovedIsUntracked(l, id);
      PutBack(l', id);
    } else if id !in l.tracked {
      assert GoneForGood(l, id);
      GoneStays(l, Step(t, ok), id);
      forall more ensures id !in Run(l', more).tracked {
        GoneForever(l', more, id);
      }
    }
  }

  lemma RemovedIsUntracked(l: Ledger, id: string)
    requires OwnersOk(l.tracked, l.threads) && Removing(l.threads, id)
    ensures id !in l.tracked
  {
    var u :| u in l.threads && l.threads[u] == Destroying(id, Remove);
    assert Owns(l.threads[u], id);
  }

  // ----- And it happens -----

  /** It does happen to a run that stays tracked: the commit looks while a Destroy that
      will fail has the run out of the registry. */
  lemma TrackedRunCanLoseVolume() returns (es: seq<Event>)
    ensures var l := Run(EMPTY, es);
            l.threads == map[] && "r" in l.tracked && SpecOf(l.specs, "r").warm && "r" !in l.res.volumes
  {
    var l;
    es, l := LateLookUp();
    es, l := Then(EMPTY, es, l, Step(2, false));
    es, l := Then(EMPTY, es, l, Step(1, true));
  }

  /** The commit's look-up falls between the two halves of the Destroy. */
  lemma LateLookUp() returns (es: seq<Event>, l: Ledger)
    ensures l == Run(EMPTY, es) && l.threads == map[1 := Committing("r", LateRelease), 2 := Destroying("r", Remove)]
    ensures l.tracked == {} && l.specs == map["r" := Spec(true, false, false)] && l.res.volumes == {"r"}
            && l.res.marks == map[]
  {
    es, l := OneRun();
    es, l := Then(EMPTY, es, l, CommitWarm(1, "r"));
    es, l := Then(EMPTY, es, l, Step(1, false));
    assert l.threads == map[1 := Committing("r", Recheck)];
    es, l := Then(EMPTY, es, l, Destroy(2, "r"));
    es, l := Then(EMPTY, es, l, Step(1, true));
  }

  lemma OneRun() returns (es: seq<Event>, l: Ledger)
    ensures l == Run(EMPTY, es) && l.threads == map[] && l.tracked == {"r"}
            && l.specs == map["r" := Spec(true, false, false)]
    ensures l.res.volumes == {"r"} && l.res.marks == map[]
  {
    es, l := Then(EMPTY, [], EMPTY, Create(0, "r", Spec(true, false, false)));
    es, l := Then(EMPTY, es, l, Step(0, true));
    es, l := Then(EMPTY, es, l, Step(0, true));
    es, l := Then(EMPTY, es, l, Step(0, true));
    es, l := Then(EMPTY, es, l, Step(0, true));
  }
}
