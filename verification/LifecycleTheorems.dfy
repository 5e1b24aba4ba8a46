/** The run lifecycle's promises, over every interleaving from an empty daemon. */
module LifecycleTheorems {
  import opened Lifecycle
  import opened LifecycleSafety

  lemma Reachable(es: seq<Event>)
    ensures Inv(Run(EMPTY, es))
  {
    EmptyKeeps();
    RunKeeps(EMPTY, es);
  }

  lemma FitsAt(es: seq<Event>, id: string)
    ensures var l := Run(EMPTY, es);
            Fits(l.res, SpecOf(l.specs, id), id, HoldingOf(l.tracked, l.threads, id), Late(l.threads, id))
  {
    Reachable(es);
  }

  /** A run belongs to the registry or to one thread, never to two. */
  lemma OneOwner(es: seq<Event>, id: string, t: nat, u: nat)
    requires var l := Run(EMPTY, es); t in l.threads && Owns(l.threads[t], id)
    ensures var l := Run(EMPTY, es);
            id !in l.tracked && (u in l.threads && Owns(l.threads[u], id) ==> u == t)
  {
    Reachable(es);
  }

  /** Private listeners are exactly those of runs with extra entries whose owner has
      opened one and not yet closed it; containers likewise, but for the leaked ones. */
  lemma ListenersAndContainers(es: seq<Event>, id: string)
    ensures var l := Run(EMPTY, es);
            var h := HoldingOf(l.tracked, l.threads, id);
            && (id in l.res.listeners <==> h.proxy && SpecOf(l.specs, id).extra)
            && (id in l.res.live <==> h.box || id in l.res.leaked)
            && !(h.box && id in l.res.leaked)
  {
    FitsAt(es, id);
  }

  /** No container is successfully removed twice, and none that exists has been. */
  lemma RemovedAtMostOnce(es: seq<Event>, id: string)
    ensures var l := Run(EMPTY, es);
            Count(l.res.removals, id) <= 1 && (id in l.res.live ==> Count(l.res.removals, id) == 0)
  {
    FitsAt(es, id);
  }

  /** A container that exists and that nobody will remove any more. */
  ghost predicate Abandoned(l: Ledger, id: string) {
    id in l.res.live && !HoldingOf(l.tracked, l.threads, id).box
  }

  /** The only ways to abandon a container: a removal that fails in a reap or in the
      cleanup of a failed create.  A failing Destroy never does. */
  lemma AbandonedIff(es: seq<Event>, e: Event, id: string)
    requires !Abandoned(Run(EMPTY, es), id)
    ensures var l := Run(EMPTY, es);
            Abandoned(Apply(l, e), id) <==> e.Step? && !e.ok && e.t in l.threads && GivesUp(l.threads[e.t], id)
  {
    Reachable(es);
    AbandonedBy(Run(EMPTY, es), e, id);
  }

  lemma AbandonedBy(l: Ledger, e: Event, id: string)
    requires Inv(l) && !Abandoned(l, id)
    ensures Abandoned(Apply(l, e), id) <==> e.Step? && !e.ok && e.t in l.threads && GivesUp(l.threads[e.t], id)
  {
    ApplyKeeps(l, e);
    AbandonedIsLeaked(l, id);
    AbandonedIsLeaked(Apply(l, e), id);
    if e.Step? && e.t in l.threads {
      LeakedByStep(l, e.t, e.ok, id);
    }
  }

  /** The thread is about to remove the run's container, and will not try again. */
  predicate GivesUp(th: Thread, id: string) {
    match th
    case Creating(j, Undo(todo)) => j == id && todo != [] && todo[0] == RemoveContainer
    case Reaping(queue, todo) => queue != [] && queue[0] == id && todo != [] && todo[0] == RemoveContainer
    case _ => false
  }

  lemma AbandonedIsLeaked(l: Ledger, id: string)
    requires Inv(l)
    ensures Abandoned(l, id) <==> id in l.res.leaked
  {
    assert Fits(l.res, SpecOf(l.specs, id), id, HoldingOf(l.tracked, l.threads, id), Late(l.threads, id));
  }

  lemma LeakedByStep(l: Ledger, t: nat, ok: bool, id: string)
    requires Inv(l) && t in l.threads && id !in l.res.leaked
    ensures id in Apply(l, Step(t, ok)).res.leaked <==> !ok && GivesUp(l.threads[t], id)
  {
    var th := l.threads[t];
    assert Tidy(th) && Known(th, l.specs);
  }

  /** When every operation has finished: each directory under runs/ belongs to a tracked
      run, each private listener to a tracked run with extra entries and each such run has
      one, and each container to a tracked run unless its removal failed. */
  lemma Quiescent(es: seq<Event>)
    requires Run(EMPTY, es).threads == map[]
    ensures var l := Run(EMPTY, es);
            && l.res.volumes <= l.tracked
            && l.res.listeners == (set id | id in l.tracked && SpecOf(l.specs, id).extra)
            && l.res.live == l.tracked + l.res.leaked
            && l.tracked !! l.res.leaked
            && forall id :: Count(l.res.marks, id) == 0
  {
    Reachable(es);
    var l := Run(EMPTY, es);
    forall id ensures HoldingOf(l.tracked, l.threads, id) == (if id in l.tracked then ALL else NOTHING)
        && !Late(l.threads, id) {
      if id !in l.tracked {
        HoldingNone(l.tracked, l.threads, id);
      }
    }
    forall id ensures Fits(l.res, SpecOf(l.specs, id), id, if id in l.tracked then ALL else NOTHING, false) {
      FitsAt(es, id);
    }
    forall id ensures Count(l.res.marks, id) == 0 {
      assert CopyingOn(l.threads, id) == {};
    }
    AllSettled(l);
  }

  lemma AllSettled(l: Ledger)
    requires forall id :: Fits(l.res, SpecOf(l.specs, id), id, if id in l.tracked then ALL else NOTHING, false)
    ensures l.res.volumes <= l.tracked
    ensures l.res.listeners == set id | id in l.tracked && SpecOf(l.specs, id).extra
    ensures l.res.live == l.tracked + l.res.leaked && l.tracked !! l.res.leaked
  {
    forall id ensures id in l.res.volumes ==> id in l.tracked {
      assert Fits(l.res, SpecOf(l.specs, id), id, if id in l.tracked then ALL else NOTHING, false);
    }
    forall id ensures id in l.res.listeners <==> id in l.tracked && SpecOf(l.specs, id).extra {
      assert Fits(l.res, SpecOf(l.specs, id), id, if id in l.tracked then ALL else NOTHING, false);
    }
    forall id ensures (id in l.res.live <==> id in l.tracked || id in l.res.leaked)
        && !(id in l.tracked && id in l.res.leaked) {
      assert Fits(l.res, SpecOf(l.specs, id), id, if id in l.tracked then ALL else NOTHING, false);
    }
  }

  /** Volume hand-off: whatever volume outlives its run's cleanup is one a commit under
      way will come back for. */
  lemma OrphanVolumeHasCommit(es: seq<Event>, id: string)
    requires var l := Run(EMPTY, es); id in l.res.volumes && !HoldingOf(l.tracked, l.threads, id).vol
    ensures var l := Run(EMPTY, es); exists t :: t in l.threads && l.threads[t].Committing? && l.threads[t].id == id
  {
    FitsAt(es, id);
    var l := Run(EMPTY, es);
    var t :| t in l.threads && LateOn(l.threads[t], id);
  }
}
