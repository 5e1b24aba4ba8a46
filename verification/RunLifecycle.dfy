/** The manager's operations from end to end, one caller at a time, changing the registry
    and the outside world in place.  What every call outside answers is a parameter. */
module RunLifecycle {
  import opened Prelude
  import opened Lifecycle
  import LifecycleSafety
  import LifecycleTheorems

  /** The answers a Create gets: the volume, the private proxy, the container, the seed of
      its workspace, and, should the seed fail, the removal of the container. */
  datatype Answers = Answers(booted: bool, bound: bool, started: bool, seeded: bool, removed: bool)

  predicate Seeds(spec: Spec) {
    spec.warm && spec.fromSnapshot
  }

  function If(b: bool, id: string): set<string> {
    if b then {id} else {}
  }

  /** A new identifier: nothing bears it yet. */
  predicate Unused(tracked: set<string>, res: Res, id: string) {
    && id !in tracked && id !in res.volumes && Count(res.marks, id) == 0 && id !in res.listeners
    && id !in res.live && id !in res.removals && id !in res.leaked
  }

  /** Every answer the request needs is yes. */
  predicate Succeeds(spec: Spec, a: Answers) {
    (spec.warm ==> a.booted) && (spec.extra ==> a.bound) && a.started && (Seeds(spec) ==> a.seeded)
  }

  /** What a Create leaves behind. */
  function Created(res: Res, id: string, spec: Spec, a: Answers): Res {
    if Succeeds(spec, a) then
      res.(volumes := res.volumes + If(spec.warm, id), listeners := res.listeners + If(spec.extra, id),
          live := res.live + {id})
    else if (spec.warm && !a.booted) || (spec.extra && !a.bound) || !a.started then res
    else if a.removed then res.(removals := res.removals[id := 1])
    else res.(live := res.live + {id}, leaked := res.leaked + {id})
  }

  /** What a Destroy whose removal succeeded leaves behind: the volume only if a commit is
      reading it. */
  function Destroyed(res: Res, id: string, spec: Spec): Res {
    res.(volumes := if spec.warm && Count(res.marks, id) == 0 then res.volumes - {id} else res.volumes,
         listeners := res.listeners - {id}, live := res.live - {id},
         removals := res.removals[id := Count(res.removals, id) + 1])
  }

  /** The same for a Reap, which drops the run whatever the removal does. */
  function Reaped(res: Res, id: string, spec: Spec, removed: bool): Res {
    if removed then Destroyed(res, id, spec)
    else
      res.(volumes := if spec.warm && Count(res.marks, id) == 0 then res.volumes - {id} else res.volumes,
           listeners := res.listeners - {id}, leaked := res.leaked + {id})
  }

  function ReapedAll(res: Res, queue: seq<string>, specs: map<string, Spec>, stuck: set<string>): Res
    requires forall id | id in queue :: id in specs
    decreases |queue|
  {
    if queue == [] then res
    else ReapedAll(Reaped(res, queue[0], specs[queue[0]], queue[0] !in stuck), queue[1..], specs, stuck)
  }

  class Daemon {
    var runs: map<string, Spec>
    var res: Res

    constructor ()
      ensures runs == map[] && res == EMPTY.res
    {
      runs, res := map[], EMPTY.res;
    }

    method ReleaseWarm(id: string, spec: Spec)
      modifies this`res
      ensures res == if spec.warm then Release(old(res), id) else old(res)
    {
      if spec.warm && !(id in res.marks && res.marks[id] > 0) {
        res := res.(volumes := res.volumes - {id});
      }
    }

    method CloseEgress(id: string)
      modifies this`res
      ensures res == old(res).(listeners := old(res).listeners - {id})
    {
      res := res.(listeners := res.listeners - {id});
    }

    method RemoveContainer(id: string, ok: bool)
      modifies this`res
      ensures res == if ok then Removed(old(res), id) else old(res)
    {
      if ok {
        res := res.(live := res.live - {id}, removals := res.removals[id := Count(res.removals, id) + 1]);
      }
    }

    /** All or nothing: either the run is tracked and owns all it asked for, or nothing of
        it is left but, when its seed failed, the record of its removal or the container
        that would not go. */
    method Create(id: string, spec: Spec, a: Answers) returns (ok: bool)
      requires Unused(runs.Keys, res, id)
      modifies this
      ensures ok <==> (spec.warm ==> a.booted) && (spec.extra ==> a.bound) && a.started
                      && (spec.warm && spec.fromSnapshot ==> a.seeded)
      ensures res.volumes == old(res).volumes + (if ok && spec.warm then {id} else {})
      ensures res.listeners == old(res).listeners + (if ok && spec.extra then {id} else {})
      ensures id in res.live <==> ok || id in res.leaked
      ensures id in res.leaked ==> a.started && !a.seeded && !a.removed
      ensures runs == (if ok then old(runs)[id := spec] else old(runs)) && res == Created(old(res), id, spec, a)
    {
      if spec.warm {
        if !a.booted {
          return false;
        }
        res := res.(volumes := res.volumes + {id});
      }
      if spec.extra {
        if !a.bound {
          ReleaseWarm(id, spec);
          return false;
        }
        res := res.(listeners := res.listeners + {id});
      }
      if !a.started {
        ReleaseWarm(id, spec);
        CloseEgress(id);
        return false;
      }
      res := res.(live := res.live + {id});
      if Seeds(spec) && !a.seeded {
        RemoveContainer(id, a.removed);
        if !a.removed {
          res := res.(leaked := res.leaked + {id});
        }
        ReleaseWarm(id, spec);
        CloseEgress(id);
        return false;
      }
      runs := runs[id := spec];
      return true;
    }

    /** NotFound is `None`; a failing removal changes nothing at all. */
    method Destroy(id: string, removed: bool) returns (ok: Option<bool>)
      modifies this
      ensures ok == if id !in old(runs) then None else Some(removed)
      ensures ok != Some(true) ==> runs == old(runs) && res == old(res)
      ensures ok == Some(true) ==> runs == old(runs) - {id} && res == Destroyed(old(res), id, old(runs)[id])
      ensures ok == Some(true) ==> id !in res.live && id !in res.listeners
      ensures ok == Some(true) && old(runs)[id].warm ==> (id in res.volumes ==> Count(res.marks, id) > 0)
    {
      if id !in runs {
        return None;
      }
      var run := runs[id];
      runs := runs - {id};
      RemoveContainer(id, removed);
      if !removed {
        runs := runs[id := run];
        assert runs == old(runs);
        return Some(false);
      }
      ReleaseWarm(id, run);
      CloseEgress(id);
      return Some(true);
    }

    /** CommitWarm while, perhaps, another caller destroys the run during the copy: then
        the volume that Destroy had to spare is released here, unless a further commit
        still reads it.  `None`: no such run, or it has no volume. */
    method CommitWarm(id: string, readable: bool, destroyed: bool) returns (ok: Option<bool>)
      modifies this
      ensures ok == if id in old(runs) && old(runs)[id].warm then Some(readable) else None
      ensures !(ok == Some(true) && destroyed) ==>
              runs == old(runs) && (forall j :: Count(res.marks, j) == Count(old(res).marks, j))
                                                   && res.(marks := old(res).marks) == old(res)
      ensures ok == Some(true) && destroyed ==>
              runs == old(runs) - {id} && (forall j :: Count(res.marks, j) == Count(old(res).marks, j))
                                                && res.(marks := old(res).marks) ==
                                                    Destroyed(old(res), id, old(runs)[id])
    {
      if id !in runs || !runs[id].warm {
        return None;
      }
      if readable {
        res := res.(marks := res.marks[id := Count(res.marks, id) + 1]);
        if destroyed {
          var _ := Destroy(id, true);
        }
        res := res.(marks := if Count(res.marks, id) <= 1 then res.marks - {id}
            else res.marks[id := res.marks[id] - 1]);
      }
      if id !in runs && !(id in res.marks && res.marks[id] > 0) {
        res := res.(volumes := res.volumes - {id});
      }
      return Some(readable);
    }

    /** The expired runs in the order they were taken out. */
    method Reap(expired: seq<string>, stuck: set<string>) returns (n: nat)
      requires forall id | id in expired :: id in runs
      modifies this
      ensures n == |expired|
      ensures runs == (map id | id in old(runs) && id !in expired :: old(runs)[id])
      ensures res == ReapedAll(old(res), expired, old(runs), stuck)
    {
      var specs := runs;
      runs := map id | id in runs && id !in expired :: runs[id];
      for i := 0 to |expired|
        invariant runs == (map id | id in old(runs) && id !in expired :: old(runs)[id])
        invariant ReapedAll(res, expired[i..], specs, stuck) == ReapedAll(old(res), expired, specs, stuck)
      {
        var id := expired[i];
        assert expired[i..][1..] == expired[i + 1..];
        ReleaseWarm(id, specs[id]);
        CloseEgress(id);
        RemoveContainer(id, id !in stuck);
        if id in stuck {
          res := res.(leaked := res.leaked + {id});
        }
      }
      return |expired|;
    }
  }

  // ----- The same operations, stepped through the machine of all interleavings -----

  /** One more step of thread `t`. */
  lemma Onward(start: Ledger, es: seq<Event>, l: Ledger, t: nat, ok: bool) returns (es': seq<Event>, l': Ledger)
    requires l == Run(start, es) && t in l.threads && Known(l.threads[t], l.specs)
    ensures l' == Run(start, es')
    ensures var m := Next(l.threads[t], l.specs, l.tracked, l.res, ok);
            && l'.specs == l.specs && l'.tracked == m.tracked && l'.res == m.res && l'.threads - {t} == l.threads - {t}
            && (if m.thread.Some? then t in l'.threads && l'.threads[t] == m.thread.value else t !in l'.threads)
  {
    es', l' := Then(start, es, l, Step(t, ok));
  }

  function DoAll(res: Res, id: string, todo: seq<Action>, ok: bool): Res
    decreases |todo|
  {
    if todo == [] then res else DoAll(Do(res, id, todo[0], ok), id, todo[1..], ok)
  }

  lemma DoAllIs(res: Res, id: string, spec: Spec, ok: bool)
    ensures DoAll(res, id, VolumeFirst(spec, []), ok) == if spec.warm then Release(res, id) else res
    ensures var r := if spec.warm then Release(res, id) else res;
            DoAll(res, id, VolumeFirst(spec, [CloseProxy]), ok) == r.(listeners := r.listeners - {id})
  {
    assert forall x, y: Action :: [x][1..] == [] && ([x] + [y])[1..] == [y];
    assert [ReleaseVolume] + [] == [ReleaseVolume];
  }

  /** The cleanup of a failed Create, and of a Destroy, step by step. */
  lemma {:induction false} CleanupAlone(start: Ledger, es: seq<Event>, l: Ledger, t: nat, id: string,
      todo: seq<Action>, ok: bool) returns (es': seq<Event>, l': Ledger)
    requires l == Run(start, es) && t in l.threads && Known(l.threads[t], l.specs)
    requires l.threads[t] == Creating(id, Undo(todo)) || l.threads[t] == Destroying(id, Drop(todo))
    ensures l' == Run(start, es') && l'.specs == l.specs && l'.tracked == l.tracked && l'.threads == l.threads - {t}
    ensures l'.res == DoAll(l.res, id, todo, ok)
    decreases |todo|
  {
    es', l' := Onward(start, es, l, t, ok);
    if todo != [] {
      es', l' := CleanupAlone(start, es', l', t, id, todo[1..], ok);
    } else {
      assert l'.threads == l'.threads - {t};
    }
  }

  /** A Create that nobody interrupts does in the machine what the method does. */
  lemma CreateAlone(start: Ledger, t: nat, id: string, spec: Spec, a: Answers) returns (es: seq<Event>, l: Ledger)
    requires t !in start.threads && id !in start.specs && Unused(start.tracked, start.res, id)
    ensures l == Run(start, es) && l.threads == start.threads && l.specs == start.specs[id := spec]
    ensures l.tracked == start.tracked + If(Succeeds(spec, a), id) && l.res == Created(start.res, id, spec, a)
  {
    es, l := Then(start, [], start, Event.Create(t, id, spec));
    es, l := Onward(start, es, l, t, a.booted);
    if !(spec.warm && !a.booted) {
      RestIsCreated(start.res, id, spec, a);
      es, l := CreateFromProxy(start, es, l, t, id, spec, a);
    }
    assert l.threads == l.threads - {t} == start.threads - {t} == start.threads;
  }

  lemma CreateFromProxy(start: Ledger, es: seq<Event>, l: Ledger, t: nat, id: string, spec: Spec, a: Answers)
      returns (es': seq<Event>, l': Ledger)
    requires l == Run(start, es) && t in l.threads && l.threads[t] == Creating(id, OpenProxy) && id in l.specs
             && l.specs[id] == spec
    ensures l' == Run(start, es') && l'.threads == l.threads - {t} && l'.specs == l.specs
    ensures l'.tracked == l.tracked + If((spec.extra ==> a.bound) && a.started && (Seeds(spec) ==> a.seeded), id)
    ensures l'.res == if spec.extra && !a.bound then (if spec.warm then Release(l.res, id) else l.res)
                      else Rest(l.res.(listeners := l.res.listeners + If(spec.extra, id)), id, spec, a)
  {
    es', l' := Onward(start, es, l, t, a.bound);
    if spec.extra && !a.bound {
      DoAllIs(l'.res, id, spec, true);
      es', l' := CleanupAlone(start, es', l', t, id, VolumeFirst(spec, []), true);
    } else {
      es', l' := CreateRest(start, es', l', t, id, spec, a);
    }
  }

  lemma RestIsCreated(res: Res, id: string, spec: Spec, a: Answers)
    requires Unused({}, res, id) && (spec.warm ==> a.booted)
    ensures var r := res.(volumes := res.volumes + If(spec.warm, id));
            if spec.extra && !a.bound then (if spec.warm then Release(r, id) else r) == Created(res, id, spec, a)
            else Rest(r.(listeners := r.listeners + If(spec.extra, id)), id, spec, a) == Created(res, id, spec, a)
  {
  }

  /** From the container on. */
  lemma CreateRest(start: Ledger, es: seq<Event>, l: Ledger, t: nat, id: string, spec: Spec, a: Answers)
      returns (es': seq<Event>, l': Ledger)
    requires l == Run(start, es) && t in l.threads && l.threads[t] == Creating(id, StartContainer) && id in l.specs
             && l.specs[id] == spec
    ensures l' == Run(start, es') && l'.threads == l.threads - {t} && l'.specs == l.specs
    ensures l'.tracked == l.tracked + If(a.started && (Seeds(spec) ==> a.seeded), id)
    ensures l'.res == Rest(l.res, id, spec, a)
  {
    es', l' := Onward(start, es, l, t, a.started);
    if !a.started {
      DoAllIs(l'.res, id, spec, true);
      es', l' := CleanupAlone(start, es', l', t, id, VolumeFirst(spec, [CloseProxy]), true);
      return;
    }
    if Seeds(spec) {
      es', l' := Onward(start, es', l', t, a.seeded);
      if !a.seeded {
        var todo := [RemoveContainer] + VolumeFirst(spec, [CloseProxy]);
        assert todo[1..] == VolumeFirst(spec, [CloseProxy]);
        DoAllIs(Do(l'.res, id, RemoveContainer, a.removed), id, spec, a.removed);
        es', l' := CleanupAlone(start, es', l', t, id, todo, a.removed);
        return;
      }
    }
    es', l' := Onward(start, es', l', t, true);
    assert l'.threads == l'.threads - {t};
  }

  function Rest(res: Res, id: string, spec: Spec, a: Answers): Res {
    var done := if spec.warm then Release(res, id) else res;
    if !a.started then done.(listeners := done.listeners - {id})
    else if Seeds(spec) && !a.seeded then
      var gone := Do(res.(live := res.live + {id}), id, RemoveContainer, a.removed);
      var done := if spec.warm then Release(gone, id) else gone;
      done.(listeners := done.listeners - {id})
    else res.(live := res.live + {id})
  }

  /** A Destroy that nobody interrupts. */
  lemma DestroyAlone(start: Ledger, t: nat, id: string, removed: bool) returns (es: seq<Event>, l: Ledger)
    requires t !in start.threads && id in start.tracked && id in start.specs
    ensures l == Run(start, es) && l.threads == start.threads && l.specs == start.specs
    ensures l.tracked == (if removed then start.tracked - {id} else start.tracked)
    ensures l.res == if removed then Destroyed(start.res, id, start.specs[id]) else start.res
  {
    es, l := Then(start, [], start, Event.Destroy(t, id));
    es, l := Onward(start, es, l, t, removed);
    if removed {
      DoAllIs(l.res, id, start.specs[id], true);
      es, l := CleanupAlone(start, es, l, t, id, VolumeFirst(start.specs[id], [CloseProxy]), true);
    } else {
      assert l.threads == l.threads - {t};
    }
    assert l.threads == start.threads - {t} == start.threads;
  }

  /** A Reap that nobody interrupts. */
  lemma ReapAlone(start: Ledger, t: nat, queue: seq<string>, stuck: set<string>) returns (es: seq<Event>, l: Ledger)
    requires t !in start.threads && queue != [] && Distinct(queue) && forall id | id in queue ::
             id in start.tracked && id in start.specs
    ensures l == Run(start, es) && l.threads == start.threads && l.specs == start.specs
    ensures l.tracked == (start.tracked - set id | id in queue)
            && l.res == ReapedAll(start.res, queue, start.specs, stuck)
  {
    es, l := Then(start, [], start, Event.Reap(t, queue));
    es, l := ReapQueueAlone(start, es, l, t, queue, stuck);
    assert l.threads == start.threads - {t} == start.threads;
  }

  lemma {:induction false} ReapQueueAlone(start: Ledger, es: seq<Event>, l: Ledger, t: nat, queue: seq<string>,
      stuck: set<string>) returns (es': seq<Event>, l': Ledger)
    requires l == Run(start, es) && t in l.threads && queue != [] && forall id | id in queue :: id in l.specs
    requires l.threads[t] == Reaping(queue, ReapActions(l.specs[queue[0]]))
    ensures l' == Run(start, es') && l'.specs == l.specs && l'.tracked == l.tracked && l'.threads == l.threads - {t}
    ensures l'.res == ReapedAll(l.res, queue, l.specs, stuck)
    decreases |queue|
  {
    es', l' := ReapHeadAlone(start, es, l, t, queue, queue[0] !in stuck);
    es', l' := Onward(start, es', l', t, true);
    if |queue| > 1 {
      es', l' := ReapQueueAlone(start, es', l', t, queue[1..], stuck);
    } else {
      assert queue[1..] == [] && l'.threads == l'.threads - {t};
    }
  }

  /** The calls for the head of the queue. */
  lemma ReapHeadAlone(start: Ledger, es: seq<Event>, l: Ledger, t: nat, queue: seq<string>, ok: bool)
      returns (es': seq<Event>, l': Ledger)
    requires l == Run(start, es) && t in l.threads && queue != [] && forall id | id in queue :: id in l.specs
    requires l.threads[t] == Reaping(queue, ReapActions(l.specs[queue[0]]))
    ensures l' == Run(start, es') && l'.specs == l.specs && l'.tracked == l.tracked
            && l'.threads - {t} == l.threads - {t}
    ensures t in l'.threads && l'.threads[t] == Reaping(queue, [])
    ensures l'.res == Reaped(l.res, queue[0], l.specs[queue[0]], ok)
  {
    es', l' := es, l;
    if l.specs[queue[0]].warm {
      assert ReapActions(l.specs[queue[0]])[1..] == [CloseProxy, RemoveContainer];
      es', l' := Onward(start, es', l', t, true);
    }
    es', l' := ReapTailAlone(start, es', l', t, queue, ok);
  }

  lemma ReapTailAlone(start: Ledger, es: seq<Event>, l: Ledger, t: nat, queue: seq<string>, ok: bool)
      returns (es': seq<Event>, l': Ledger)
    requires l == Run(start, es) && t in l.threads && queue != [] && forall id | id in queue :: id in l.specs
    requires l.threads[t] == Reaping(queue, [CloseProxy, RemoveContainer])
    ensures l' == Run(start, es') && l'.specs == l.specs && l'.tracked == l.tracked
            && l'.threads - {t} == l.threads - {t}
    ensures t in l'.threads && l'.threads[t] == Reaping(queue, [])
    ensures l'.res == Do(Do(l.res, queue[0], CloseProxy, true), queue[0], RemoveContainer, ok)
  {
    assert [CloseProxy, RemoveContainer][1..] == [RemoveContainer] && [RemoveContainer][1..] == [];
    es', l' := Onward(start, es, l, t, true);
    es', l' := Onward(start, es', l', t, ok);
  }

  /** An identifier no Create has had is unused in every reachable state. */
  lemma FreshIsUnused(es: seq<Event>, id: string)
    requires id !in Run(EMPTY, es).specs
    ensures var l := Run(EMPTY, es); Unused(l.tracked, l.res, id)
  {
    var l := Run(EMPTY, es);
    LifecycleTheorems.Reachable(es);
    forall t | t in l.threads
        ensures !LifecycleSafety.Owns(l.threads[t], id) && !LifecycleSafety.LateOn(l.threads[t], id) {
      assert Known(l.threads[t], l.specs);
    }
    LifecycleSafety.HoldingNone(l.tracked, l.threads, id);
    LifecycleTheorems.FitsAt(es, id);
    assert LifecycleSafety.CopyingOn(l.threads, id) == {};
  }
}
