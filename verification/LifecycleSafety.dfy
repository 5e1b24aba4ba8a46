/** What every interleaving of the run lifecycle keeps. */
module LifecycleSafety {
  import opened Prelude
  import opened Lifecycle

  /** What an owner of a run still has to give back: its volume, its private listener,
      its container; and whether that container has never existed yet. */
  datatype Holding = Holding(vol: bool, proxy: bool, box: bool, unborn: bool)

  const ALL := Holding(true, true, true, false)
  const NOTHING := Holding(false, false, false, false)

  function OfActions(todo: seq<Action>): Holding {
    Holding(ReleaseVolume in todo, CloseProxy in todo, RemoveContainer in todo, false)
  }

  predicate Owns(th: Thread, id: string) {
    match th
    case Creating(j, _) => id == j
    case Destroying(j, _) => id == j
    case Reaping(queue, _) => id in queue
    case Committing(_, _) => false
  }

  function HoldsCreating(pc: CreatePc): Holding {
    match pc
    case BootVolume => Holding(false, false, false, true)
    case OpenProxy => Holding(true, false, false, true)
    case StartContainer => Holding(true, true, false, true)
    case SeedVolume => ALL
    case Insert => ALL
    case Undo(todo) => OfActions(todo)
  }

  function Holds(th: Thread, id: string): Holding {
    match th
    case Creating(_, pc) => HoldsCreating(pc)
    case Destroying(_, pc) => if pc.Remove? then ALL else OfActions(pc.todo)
    case Reaping(queue, todo) => if queue != [] && id == queue[0] then OfActions(todo) else ALL
    case Committing(_, _) => NOTHING
  }

  /** A commit on the run is under way: it will still look the run up at its end. */
  predicate LateOn(th: Thread, id: string) {
    th.Committing? && th.id == id
  }

  ghost predicate Late(threads: map<nat, Thread>, id: string) {
    exists t :: t in threads && LateOn(threads[t], id)
  }

  predicate NoRepeats(todo: seq<Action>) {
    forall i, j | 0 <= i < j < |todo| :: todo[i] != todo[j]
  }

  predicate Tidy(th: Thread) {
    match th
    case Creating(_, pc) => pc.Undo? ==> NoRepeats(pc.todo)
    case Destroying(_, pc) => pc.Drop? ==> NoRepeats(pc.todo) && RemoveContainer !in pc.todo
    case Reaping(queue, todo) => queue != [] && Distinct(queue) && NoRepeats(todo)
    case Committing(_, _) => true
  }

  /** The resources of one run are exactly what its owner's holding says. */
  ghost predicate Fits(res: Res, spec: Spec, id: string, h: Holding, late: bool) {
    && (id in res.listeners <==> h.proxy && spec.extra)
    && (id in res.live <==> h.box || id in res.leaked)
    && (h.box ==> id !in res.leaked)
    && (h.unborn ==> id !in res.leaked && Count(res.removals, id) == 0 && id !in res.lost && !late)
    && Count(res.removals, id) <= (if id in res.live then 0 else 1)
    && (id in res.volumes ==> spec.warm && (h.vol || late))
    && (h.vol && spec.warm ==> (id in res.volumes <==> id !in res.lost))
  }

  function SpecOf(specs: map<string, Spec>, id: string): Spec {
    if id in specs then specs[id] else Spec(false, false, false)
  }

  /** Exactly one owner: the registry, one thread, or nobody. */
  ghost predicate OwnersOk(tracked: set<string>, threads: map<nat, Thread>) {
    && (forall t, id | t in threads && id in tracked :: !Owns(threads[t], id))
    && (forall t, u, id | t in threads && u in threads && Owns(threads[t], id) && Owns(threads[u], id) :: t == u)
  }

  ghost predicate ThreadsOk(threads: map<nat, Thread>, specs: map<string, Spec>) {
    forall t | t in threads :: Known(threads[t], specs) && Tidy(threads[t])
  }

  ghost predicate Owned(threads: map<nat, Thread>, id: string) {
    exists t :: t in threads && Owns(threads[t], id)
  }

  ghost function HoldingOf(tracked: set<string>, threads: map<nat, Thread>, id: string): Holding {
    if id in tracked then ALL
    else if Owned(threads, id) then
      var t :| t in threads && Owns(threads[t], id);
      Holds(threads[t], id)
    else NOTHING
  }

  function CopyingOn(threads: map<nat, Thread>, id: string): set<nat> {
    set t | t in threads && threads[t] == Committing(id, Copying)
  }

  ghost predicate MarksOk(marks: map<string, nat>, threads: map<nat, Thread>) {
    forall id :: Count(marks, id) == |CopyingOn(threads, id)|
  }

  ghost predicate AllFit(l: Ledger) {
    forall id :: Fits(l.res, SpecOf(l.specs, id), id, HoldingOf(l.tracked, l.threads, id), Late(l.threads, id))
  }

  ghost predicate Inv(l: Ledger) {
    && l.tracked <= l.specs.Keys && KnownNames(l.res, l.specs)
    && ThreadsOk(l.threads, l.specs) && OwnersOk(l.tracked, l.threads)
    && MarksOk(l.res.marks, l.threads) && AllFit(l)
  }

  // ----- Single cleanup calls -----

  lemma TailActions(todo: seq<Action>)
    requires todo != [] && NoRepeats(todo)
    ensures NoRepeats(todo[1..])
    ensures forall a :: a in todo <==> a == todo[0] || a in todo[1..]
    ensures todo[0] !in todo[1..]
  {
    assert todo == [todo[0]] + todo[1..];
  }

  lemma DoFits(res: Res, spec: Spec, id: string, todo: seq<Action>, ok: bool, late: bool)
    requires todo != [] && NoRepeats(todo) && Fits(res, spec, id, OfActions(todo), late)
    requires Count(res.marks, id) > 0 ==> late
    ensures Fits(Do(res, id, todo[0], ok), spec, id, OfActions(todo[1..]), late)
  {
    TailActions(todo);
  }

  lemma RemovedFits(res: Res, spec: Spec, id: string, late: bool)
    requires Fits(res, spec, id, ALL, late)
    ensures Fits(Removed(res, id), spec, id, OfActions(VolumeFirst(spec, [CloseProxy])), late)
  {
  }

  /** A cleanup call concerns one run only. */
  ghost predicate SameFor(res: Res, res': Res, id: string) {
    && (id in res'.volumes <==> id in res.volumes)
    && (id in res'.listeners <==> id in res.listeners)
    && (id in res'.live <==> id in res.live)
    && (id in res'.leaked <==> id in res.leaked)
    && (id in res'.lost <==> id in res.lost)
    && Count(res'.removals, id) == Count(res.removals, id)
    && Count(res'.marks, id) == Count(res.marks, id)
  }

  lemma DoElsewhere(res: Res, id: string, a: Action, ok: bool)
    ensures forall j | j != id :: SameFor(res, Do(res, id, a, ok), j)
    ensures Do(res, id, a, ok).marks == res.marks
  {
  }

  // ----- Steps of creates and destroys -----

  lemma CreateAdvances(id: string, pc: CreatePc, spec: Spec, tracked: set<string>, res: Res, ok: bool, late: bool)
    requires Tidy(Creating(id, pc)) && Fits(res, spec, id, HoldsCreating(pc), late)
    requires Count(res.marks, id) > 0 ==> late
    ensures var m := CreateStep(id, pc, spec, tracked, res, ok);
            && (m.thread.Some? ==> (&& m.thread.value.Creating? && m.thread.value.id == id && Tidy(m.thread.value)
                                    && m.tracked == tracked && Fits(m.res, spec, id, Holds(m.thread.value, id), late)))
            && (m.thread.None? ==> (|| (m.tracked == tracked + {id} && Fits(m.res, spec, id, ALL, late))
                                    || (m.tracked == tracked && Fits(m.res, spec, id, NOTHING, late))))
  {
    if pc.Undo? {
      if pc.todo != [] {
        TailActions(pc.todo);
        DoFits(res, spec, id, pc.todo, ok, late);
      }
    } else if pc.BootVolume? || pc.OpenProxy? {
      AcquireAdvances(id, pc, spec, tracked, res, ok, late);
    }
  }

  lemma AcquireAdvances(id: string, pc: CreatePc, spec: Spec, tracked: set<string>, res: Res, ok: bool, late: bool)
    requires (pc.BootVolume? || pc.OpenProxy?) && Fits(res, spec, id, HoldsCreating(pc), late)
    ensures var m := CreateStep(id, pc, spec, tracked, res, ok);
            && m.tracked == tracked
            && (m.thread.Some? ==> (&& m.thread.value.Creating? && m.thread.value.id == id && Tidy(m.thread.value)
                                    && Fits(m.res, spec, id, Holds(m.thread.value, id), late)))
            && (m.thread.None? ==> Fits(m.res, spec, id, NOTHING, late))
  {
  }

  lemma CreateElsewhere(id: string, pc: CreatePc, spec: Spec, tracked: set<string>, res: Res, ok: bool)
    ensures var m := CreateStep(id, pc, spec, tracked, res, ok);
            m.res.marks == res.marks && forall j | j != id :: SameFor(res, m.res, j)
  {
    if pc.Undo? && pc.todo != [] {
      DoElsewhere(res, id, pc.todo[0], ok);
    }
  }

  lemma DestroyAdvances(id: string, pc: DestroyPc, spec: Spec, tracked: set<string>, res: Res, ok: bool, late: bool)
    requires Tidy(Destroying(id, pc)) && Fits(res, spec, id, Holds(Destroying(id, pc), id), late)
    requires Count(res.marks, id) > 0 ==> late
    ensures var m := DestroyStep(id, pc, spec, tracked, res, ok);
            && (m.thread.Some? ==> (&& m.thread.value.Destroying? && m.thread.value.id == id && Tidy(m.thread.value)
                                    && m.tracked == tracked && Fits(m.res, spec, id, Holds(m.thread.value, id), late)))
            && (m.thread.None? ==> (|| (m.tracked == tracked + {id} && Fits(m.res, spec, id, ALL, late))
                                    || (m.tracked == tracked && Fits(m.res, spec, id, NOTHING, late))))
  {
    if pc.Remove? {
      if ok {
        RemovedFits(res, spec, id, late);
      }
    } else if pc.todo != [] {
      TailActions(pc.todo);
      DoFits(res, spec, id, pc.todo, ok, late);
    }
  }

  lemma DestroyElsewhere(id: string, pc: DestroyPc, spec: Spec, tracked: set<string>, res: Res, ok: bool)
    ensures var m := DestroyStep(id, pc, spec, tracked, res, ok);
            m.res.marks == res.marks && forall j | j != id :: SameFor(res, m.res, j)
  {
    if pc.Drop? && pc.todo != [] {
      DoElsewhere(res, id, pc.todo[0], ok);
    }
  }

  // ----- From one run to the whole ledger -----

  lemma HoldingIs(tracked: set<string>, threads: map<nat, Thread>, t: nat, id: string)
    requires OwnersOk(tracked, threads) && t in threads && Owns(threads[t], id)
    ensures HoldingOf(tracked, threads, id) == Holds(threads[t], id)
  {
    assert Owned(threads, id);
  }

  lemma HoldingNone(tracked: set<string>, threads: map<nat, Thread>, id: string)
    requires id !in tracked && forall t | t in threads :: !Owns(threads[t], id)
    ensures HoldingOf(tracked, threads, id) == NOTHING
  {
    assert !Owned(threads, id);
  }

  /** A run that no moving thread concerns keeps its holding. */
  lemma HoldingStays(tracked: set<string>, threads: map<nat, Thread>, tracked': set<string>,
      threads': map<nat, Thread>, t: nat, id: string)
    requires OwnersOk(tracked, threads) && OwnersOk(tracked', threads') && threads' - {t} == threads - {t}
    requires id in tracked' <==> id in tracked
    requires (t in threads && Owns(threads[t], id)) <==> (t in threads' && Owns(threads'[t], id))
    requires t in threads && Owns(threads[t], id) ==> Holds(threads[t], id) == Holds(threads'[t], id)
    ensures HoldingOf(tracked', threads', id) == HoldingOf(tracked, threads, id)
  {
    if id !in tracked {
      if u :| u in threads && Owns(threads[u], id) {
        Still(threads, threads', t, u);
        HoldingIs(tracked, threads, u, id);
        HoldingIs(tracked', threads', u, id);
      } else {
        forall u | u in threads' ensures !Owns(threads'[u], id) {
          Still(threads', threads, t, u);
        }
        HoldingNone(tracked, threads, id);
        HoldingNone(tracked', threads', id);
      }
    }
  }

  lemma Still(threads: map<nat, Thread>, threads': map<nat, Thread>, t: nat, u: nat)
    requires threads' - {t} == threads - {t} && u in threads
    ensures u != t ==> u in threads' && threads'[u] == threads[u]
  {
    if u != t {
      assert u in threads - {t};
      assert (threads - {t})[u] == (threads' - {t})[u];
    }
  }

  /** Commits elsewhere are untouched. */
  lemma LateStays(threads: map<nat, Thread>, threads': map<nat, Thread>, t: nat, id: string)
    requires threads' - {t} == threads - {t}
    requires (t in threads && LateOn(threads[t], id)) <==> (t in threads' && LateOn(threads'[t], id))
    ensures Late(threads', id) <==> Late(threads, id)
  {
    forall u | u in threads && LateOn(threads[u], id) ensures Late(threads', id) {
      Still(threads, threads', t, u);
      assert (if u == t then t else u) in threads';
    }
    forall u | u in threads' && LateOn(threads'[u], id) ensures Late(threads, id) {
      Still(threads', threads, t, u);
      assert (if u == t then t else u) in threads;
    }
  }

  lemma CopyingStays(threads: map<nat, Thread>, threads': map<nat, Thread>, t: nat, id: string)
    requires threads' - {t} == threads - {t}
    requires (t in threads && threads[t] == Committing(id, Copying)) <==>
             (t in threads' && threads'[t] == Committing(id, Copying))
    ensures CopyingOn(threads', id) == CopyingOn(threads, id)
  {
    forall u | u in threads ensures u in CopyingOn(threads, id) ==> u in CopyingOn(threads', id) {
      Still(threads, threads', t, u);
    }
    forall u | u in threads' ensures u in CopyingOn(threads', id) ==> u in CopyingOn(threads, id) {
      Still(threads', threads, t, u);
    }
  }

  /** Held marks are late commits. */
  lemma MarkedIsLate(marks: map<string, nat>, threads: map<nat, Thread>, id: string)
    requires MarksOk(marks, threads) && Count(marks, id) > 0
    ensures Late(threads, id)
  {
    assert |CopyingOn(threads, id)| > 0;
    var t :| t in CopyingOn(threads, id);
    assert LateOn(threads[t], id);
  }

  lemma FitsStays(res: Res, res': Res, spec: Spec, id: string, h: Holding, late: bool, late': bool)
    requires Fits(res, spec, id, h, late) && SameFor(res, res', id) && (late <==> late')
    ensures Fits(res', spec, id, h, late')
  {
  }

  /** A create or destroy step, seen from the whole ledger: one run changes hands. */
  ghost predicate OwnStep(l: Ledger, l': Ledger, t: nat, id: string) {
    && t in l.threads && Owns(l.threads[t], id) && (l.threads[t].Creating? || l.threads[t].Destroying?)
    && l'.specs == l.specs && l'.threads - {t} == l.threads - {t} && l'.res.marks == l.res.marks
    && (forall j | j != id :: SameFor(l.res, l'.res, j))
    && KnownNames(l'.res, l.specs)
    && (if t in l'.threads then
          && (l'.threads[t].Creating? || l'.threads[t].Destroying?) && l'.threads[t].id == id && Tidy(l'.threads[t])
          && l'.tracked == l.tracked
              && Fits(l'.res, SpecOf(l.specs, id), id, Holds(l'.threads[t], id), Late(l.threads, id))
        else
          || (l'.tracked == l.tracked + {id} && Fits(l'.res, SpecOf(l.specs, id), id, ALL, Late(l.threads, id)))
          || (l'.tracked == l.tracked && Fits(l'.res, SpecOf(l.specs, id), id, NOTHING, Late(l.threads, id))))
  }

  lemma OwnStepOwners(l: Ledger, l': Ledger, t: nat, id: string)
    requires Inv(l) && OwnStep(l, l', t, id)
    ensures OwnersOk(l'.tracked, l'.threads) && ThreadsOk(l'.threads, l'.specs)
  {
    forall u | u in l'.threads && u != t ensures u in l.threads && l'.threads[u] == l.threads[u] {
      Still(l'.threads, l.threads, t, u);
    }
  }

  lemma OwnStepKeeps(l: Ledger, l': Ledger, t: nat, id: string)
    requires Inv(l) && OwnStep(l, l', t, id)
    ensures Inv(l')
  {
    OwnStepOwners(l, l', t, id);
    MarksStay(l, l', t);
    forall j ensures Fits(l'.res, SpecOf(l'.specs, j), j, HoldingOf(l'.tracked, l'.threads, j), Late(l'.threads, j)) {
      LateStays(l.threads, l'.threads, t, j);
      if j != id {
        HoldingStays(l.tracked, l.threads, l'.tracked, l'.threads, t, j);
        FitsStays(l.res, l'.res, SpecOf(l.specs, j), j, HoldingOf(l.tracked, l.threads, j), Late(l.threads, j),
            Late(l'.threads, j));
      } else {
        NewHolding(l, l', t, id);
      }
    }
  }

  lemma NewHolding(l: Ledger, l': Ledger, t: nat, id: string)
    requires Inv(l) && OwnStep(l, l', t, id) && OwnersOk(l'.tracked, l'.threads)
    ensures Fits(l'.res, SpecOf(l.specs, id), id, HoldingOf(l'.tracked, l'.threads, id), Late(l.threads, id))
  {
    if t in l'.threads {
      HoldingIs(l'.tracked, l'.threads, t, id);
    } else if id !in l'.tracked {
      forall u | u in l'.threads ensures !Owns(l'.threads[u], id) {
        Still(l'.threads, l.threads, t, u);
      }
      HoldingNone(l'.tracked, l'.threads, id);
    }
  }

  lemma OwnHolding(l: Ledger, t: nat, id: string)
    requires Inv(l) && t in l.threads && Owns(l.threads[t], id)
    ensures Fits(l.res, SpecOf(l.specs, id), id, Holds(l.threads[t], id), Late(l.threads, id))
    ensures Count(l.res.marks, id) > 0 ==> Late(l.threads, id)
  {
    assert Fits(l.res, SpecOf(l.specs, id), id, HoldingOf(l.tracked, l.threads, id), Late(l.threads, id));
    HoldingIs(l.tracked, l.threads, t, id);
    if Count(l.res.marks, id) > 0 {
      MarkedIsLate(l.res.marks, l.threads, id);
    }
  }

  /** The names in the outside world's records are names of runs. */
  ghost predicate KnownNames(res: Res, specs: map<string, Spec>) {
    res.leaked + res.removals.Keys + res.lost <= specs.Keys
  }

  lemma CreateNames(id: string, pc: CreatePc, spec: Spec, tracked: set<string>, res: Res, ok: bool,
      specs: map<string, Spec>)
    requires id in specs && KnownNames(res, specs)
    ensures KnownNames(CreateStep(id, pc, spec, tracked, res, ok).res, specs)
  {
  }

  lemma DestroyNames(id: string, pc: DestroyPc, spec: Spec, tracked: set<string>, res: Res, ok: bool,
      specs: map<string, Spec>)
    requires id in specs && KnownNames(res, specs)
    ensures KnownNames(DestroyStep(id, pc, spec, tracked, res, ok).res, specs)
  {
  }

  /** A thread's move, seen from the whole ledger. */
  lemma MoveIsOwnStep(l: Ledger, t: nat, id: string, m: Move)
    requires t in l.threads && Owns(l.threads[t], id) && (l.threads[t].Creating? || l.threads[t].Destroying?)
    requires KnownNames(m.res, l.specs) && m.res.marks == l.res.marks && forall j | j != id :: SameFor(l.res, m.res, j)
    requires m.thread.Some? ==>
               && (m.thread.value.Creating? || m.thread.value.Destroying?) && m.thread.value.id == id
                   && Tidy(m.thread.value)
               && m.tracked == l.tracked
                   && Fits(m.res, SpecOf(l.specs, id), id, Holds(m.thread.value, id), Late(l.threads, id))
    requires m.thread.None? ==>
               || (m.tracked == l.tracked + {id} && Fits(m.res, SpecOf(l.specs, id), id, ALL, Late(l.threads, id)))
               || (m.tracked == l.tracked && Fits(m.res, SpecOf(l.specs, id), id, NOTHING, Late(l.threads, id)))
    ensures OwnStep(l, Moved(l, t, m), t, id)
  {
    assert Moved(l, t, m).threads - {t} == l.threads - {t};
  }

  function Moved(l: Ledger, t: nat, m: Move): Ledger {
    l.(threads := if m.thread.Some? then l.threads[t := m.thread.value]
        else l.threads - {t}, tracked := m.tracked, res := m.res)
  }

  lemma CreateKeeps(l: Ledger, t: nat, ok: bool)
    requires Inv(l) && t in l.threads && l.threads[t].Creating?
    ensures Inv(Apply(l, Step(t, ok)))
  {
    var th := l.threads[t];
    var m := CreateStep(th.id, th.pc, SpecOf(l.specs, th.id), l.tracked, l.res, ok);
    OwnHolding(l, t, th.id);
    CreateAdvances(th.id, th.pc, SpecOf(l.specs, th.id), l.tracked, l.res, ok, Late(l.threads, th.id));
    CreateElsewhere(th.id, th.pc, SpecOf(l.specs, th.id), l.tracked, l.res, ok);
    CreateNames(th.id, th.pc, SpecOf(l.specs, th.id), l.tracked, l.res, ok, l.specs);
    MoveIsOwnStep(l, t, th.id, m);
    OwnStepKeeps(l, Moved(l, t, m), t, th.id);
    assert Apply(l, Step(t, ok)) == Moved(l, t, m);
  }

  lemma DestroyKeeps(l: Ledger, t: nat, ok: bool)
    requires Inv(l) && t in l.threads && l.threads[t].Destroying?
    ensures Inv(Apply(l, Step(t, ok)))
  {
    var th := l.threads[t];
    var m := DestroyStep(th.id, th.dpc, SpecOf(l.specs, th.id), l.tracked, l.res, ok);
    OwnHolding(l, t, th.id);
    DestroyAdvances(th.id, th.dpc, SpecOf(l.specs, th.id), l.tracked, l.res, ok, Late(l.threads, th.id));
    DestroyElsewhere(th.id, th.dpc, SpecOf(l.specs, th.id), l.tracked, l.res, ok);
    DestroyNames(th.id, th.dpc, SpecOf(l.specs, th.id), l.tracked, l.res, ok, l.specs);
    MoveIsOwnStep(l, t, th.id, m);
    OwnStepKeeps(l, Moved(l, t, m), t, th.id);
    assert Apply(l, Step(t, ok)) == Moved(l, t, m);
  }

  /** A thread that neither marks nor unmarks leaves the counts right. */
  lemma MarksStay(l: Ledger, l': Ledger, t: nat)
    requires MarksOk(l.res.marks, l.threads) && l'.res.marks == l.res.marks && l'.threads - {t} == l.threads - {t}
    requires t in l.threads ==> !l.threads[t].Committing?
    requires t in l'.threads ==> !l'.threads[t].Committing?
    ensures MarksOk(l'.res.marks, l'.threads)
  {
    forall j ensures Count(l'.res.marks, j) == |CopyingOn(l'.threads, j)| {
      CopyingStays(l.threads, l'.threads, t, j);
    }
  }

  // ----- Reaps -----

  /** A cleanup call of a reap, on the head of its queue. */
  lemma ReapCallKeeps(l: Ledger, t: nat, ok: bool)
    requires Inv(l) && t in l.threads && l.threads[t].Reaping? && l.threads[t].todo != []
    ensures Inv(Apply(l, Step(t, ok)))
  {
    var th, l' := l.threads[t], Apply(l, Step(t, ok));
    var id := th.queue[0];
    OwnHolding(l, t, id);
    TailActions(th.todo);
    DoFits(l.res, SpecOf(l.specs, id), id, th.todo, ok, Late(l.threads, id));
    DoElsewhere(l.res, id, th.todo[0], ok);
    assert l'.threads == l.threads[t := Reaping(th.queue, th.todo[1..])];
    assert l'.threads - {t} == l.threads - {t};
    MarksStay(l, l', t);
    ReapCallFits(l, l', t, id);
  }

  lemma ReapCallFits(l: Ledger, l': Ledger, t: nat, id: string)
    requires OwnersOk(l.tracked, l.threads) && AllFit(l) && t in l.threads && l.threads[t].Reaping?
             && l.threads[t].queue != [] && l.threads[t].queue[0] == id
    requires t in l'.threads && l'.threads[t].Reaping? && l'.threads[t].queue == l.threads[t].queue
    requires l'.threads == l.threads[t := l'.threads[t]] && l'.tracked == l.tracked && l'.specs == l.specs
    requires Fits(l'.res, SpecOf(l.specs, id), id, OfActions(l'.threads[t].todo), Late(l.threads, id))
    requires forall j | j != id :: SameFor(l.res, l'.res, j)
    ensures OwnersOk(l'.tracked, l'.threads) && AllFit(l')
  {
    assert OwnersOk(l'.tracked, l'.threads);
    assert l'.threads - {t} == l.threads - {t};
    forall j ensures Fits(l'.res, SpecOf(l'.specs, j), j, HoldingOf(l'.tracked, l'.threads, j), Late(l'.threads, j)) {
      LateStays(l.threads, l'.threads, t, j);
      if j == id {
        HoldingIs(l'.tracked, l'.threads, t, id);
      } else {
        HoldingStays(l.tracked, l.threads, l'.tracked, l'.threads, t, j);
        FitsStays(l.res, l'.res, SpecOf(l.specs, j), j, HoldingOf(l.tracked, l.threads, j), Late(l.threads, j),
            Late(l'.threads, j));
      }
    }
  }

  lemma ReapActionsFit(res: Res, spec: Spec, id: string, late: bool)
    requires Fits(res, spec, id, ALL, late)
    ensures NoRepeats(ReapActions(spec)) && Fits(res, spec, id, OfActions(ReapActions(spec)), late)
  {
  }

  lemma QueueTail(q: seq<string>)
    requires q != [] && Distinct(q)
    ensures Distinct(q[1..]) && q[0] !in q[1..] && forall id :: id in q <==> id == q[0] || id in q[1..]
  {
    assert q == [q[0]] + q[1..];
  }

  /** A reap is done with its head and turns to the next run. */
  lemma ReapNextKeeps(l: Ledger, t: nat, ok: bool)
    requires Inv(l) && t in l.threads && l.threads[t].Reaping? && l.threads[t].todo == []
    ensures Inv(Apply(l, Step(t, ok)))
  {
    var q := l.threads[t].queue;
    QueueTail(q);
    var rest := q[1..];
    var l' := Apply(l, Step(t, ok));
    if rest == [] {
      ReapEndKeeps(l, t, ok);
    } else {
      OwnHolding(l, t, rest[0]);
      ReapActionsFit(l.res, SpecOf(l.specs, rest[0]), rest[0], Late(l.threads, rest[0]));
      assert l'.threads == l.threads[t := Reaping(rest, ReapActions(l.specs[rest[0]]))];
      assert l'.threads - {t} == l.threads - {t};
      assert OwnersOk(l'.tracked, l'.threads);
      ReapNextFits(l, l', t, q);
    }
  }

  lemma ReapNextFits(l: Ledger, l': Ledger, t: nat, q: seq<string>)
    requires Inv(l) && t in l.threads && l.threads[t] == Reaping(q, []) && |q| > 1
    requires l' == l.(threads := l.threads[t := Reaping(q[1..], ReapActions(l.specs[q[1]]))])
             && OwnersOk(l'.tracked, l'.threads)
    requires Fits(l.res, SpecOf(l.specs, q[1]), q[1], OfActions(ReapActions(l.specs[q[1]])), Late(l.threads, q[1]))
    ensures MarksOk(l'.res.marks, l'.threads) && AllFit(l')
  {
    QueueTail(q);
    assert l'.threads - {t} == l.threads - {t};
    MarksStay(l, l', t);
    forall j ensures Fits(l'.res, SpecOf(l'.specs, j), j, HoldingOf(l'.tracked, l'.threads, j), Late(l'.threads, j)) {
      LateStays(l.threads, l'.threads, t, j);
      if j == q[0] {
        OwnHolding(l, t, j);
        Unowned(l, l', t, j);
      } else if j == q[1] {
        HoldingIs(l'.tracked, l'.threads, t, j);
      } else {
        HoldingStays(l.tracked, l.threads, l'.tracked, l'.threads, t, j);
      }
    }
  }

  /** When the owning thread lets go, nobody else has the run. */
  lemma Unowned(l: Ledger, l': Ledger, t: nat, id: string)
    requires OwnersOk(l.tracked, l.threads) && l'.tracked == l.tracked && l'.threads - {t} == l.threads - {t}
    requires t in l.threads && Owns(l.threads[t], id) && (t in l'.threads ==> !Owns(l'.threads[t], id))
    ensures HoldingOf(l'.tracked, l'.threads, id) == NOTHING
  {
    forall u | u in l'.threads ensures !Owns(l'.threads[u], id) {
      Still(l'.threads, l.threads, t, u);
    }
    HoldingNone(l'.tracked, l'.threads, id);
  }

  /** The last run of a reap is done. */
  lemma ReapEndKeeps(l: Ledger, t: nat, ok: bool)
    requires Inv(l) && t in l.threads && l.threads[t].Reaping? && l.threads[t].todo == [] && |l.threads[t].queue| == 1
    ensures Inv(Apply(l, Step(t, ok)))
  {
    var l' := Apply(l, Step(t, ok));
    var id := l.threads[t].queue[0];
    assert l'.threads == l.threads - {t};
    assert l'.threads - {t} == l.threads - {t};
    OwnHolding(l, t, id);
    MarksStay(l, l', t);
    forall j ensures Fits(l'.res, SpecOf(l'.specs, j), j, HoldingOf(l'.tracked, l'.threads, j), Late(l'.threads, j)) {
      LateStays(l.threads, l'.threads, t, j);
      if j == id {
        Unowned(l, l', t, j);
      } else {
        HoldingStays(l.tracked, l.threads, l'.tracked, l'.threads, t, j);
      }
    }
  }

  // ----- Commits -----

  lemma CommitHoldings(l: Ledger, l': Ledger, t: nat)
    requires OwnersOk(l.tracked, l.threads) && l'.tracked == l.tracked && l'.threads - {t} == l.threads - {t}
    requires t in l.threads ==> l.threads[t].Committing?
    requires t in l'.threads ==> l'.threads[t].Committing?
    ensures OwnersOk(l'.tracked, l'.threads)
    ensures forall j :: HoldingOf(l'.tracked, l'.threads, j) == HoldingOf(l.tracked, l.threads, j)
  {
    forall u | u in l'.threads && u != t ensures u in l.threads && l'.threads[u] == l.threads[u] {
      Still(l'.threads, l.threads, t, u);
    }
    forall j ensures HoldingOf(l'.tracked, l'.threads, j) == HoldingOf(l.tracked, l.threads, j) {
      HoldingStays(l.tracked, l.threads, l'.tracked, l'.threads, t, j);
    }
  }

  lemma CopyingAdd(threads: map<nat, Thread>, t: nat, id: string)
    requires t in threads && threads[t] != Committing(id, Copying)
    ensures forall j ::
              |CopyingOn(threads[t := Committing(id, Copying)], j)|
              == |CopyingOn(threads, j)| - Bit(t in CopyingOn(threads, j)) + Bit(j == id)
  {
    var threads' := threads[t := Committing(id, Copying)];
    forall j ensures |CopyingOn(threads', j)| ==
        |CopyingOn(threads, j)| - Bit(t in CopyingOn(threads, j)) + Bit(j == id) {
      var rest := CopyingOn(threads, j) - {t};
      assert CopyingOn(threads', j) == if j == id then rest + {t} else rest;
    }
  }

  lemma CopyingDrop(threads: map<nat, Thread>, threads': map<nat, Thread>, t: nat, id: string)
    requires t in threads && threads[t] == Committing(id, Copying) && threads' - {t} == threads - {t}
    requires t in threads' ==> !(threads'[t].Committing? && threads'[t].cpc.Copying?)
    ensures forall j :: |CopyingOn(threads', j)| == |CopyingOn(threads, j)| - Bit(j == id)
  {
    forall j ensures |CopyingOn(threads', j)| == |CopyingOn(threads, j)| - Bit(j == id) {
      forall u | u in threads && u != t ensures u in threads' && threads'[u] == threads[u] {
        Still(threads, threads', t, u);
      }
      forall u | u in threads' && u != t ensures u in threads && threads'[u] == threads[u] {
        Still(threads', threads, t, u);
      }
      assert CopyingOn(threads', j) == CopyingOn(threads, j) - {t};
      assert t in CopyingOn(threads, j) <==> j == id;
    }
  }

  lemma CommitKeepsMarks(l: Ledger, t: nat, ok: bool)
    requires MarksOk(l.res.marks, l.threads) && t in l.threads && l.threads[t].Committing?
             && Known(l.threads[t], l.specs)
    ensures var l' := Apply(l, Step(t, ok)); MarksOk(l'.res.marks, l'.threads)
  {
    var l' := Apply(l, Step(t, ok));
    var id, pc := l.threads[t].id, l.threads[t].cpc;
    assert l'.threads - {t} == l.threads - {t};
    if pc.Mark? && ok {
      CopyingAdd(l.threads, t, id);
    } else if pc.Copying? {
      CopyingDrop(l.threads, l'.threads, t, id);
    }
    forall j ensures Count(l'.res.marks, j) == |CopyingOn(l'.threads, j)| {
      assert Count(l.res.marks, j) == |CopyingOn(l.threads, j)|;
      if !(pc.Mark? && ok) && !pc.Copying? {
        CopyingStays(l.threads, l'.threads, t, j);
      }
    }
  }

  /** A late commit that lets go leaves no volume behind that nobody will release. */
  lemma CommitFits(res: Res, spec: Spec, j: string, h: Holding, late: bool, id: string, pc: CommitPc,
      tracked: set<string>, ok: bool, late': bool)
    requires Fits(res, spec, j, h, late)
    requires j != id ==> late' == late
    requires j == id ==> late && (late' || h.vol || id !in CommitStep(id, pc, tracked, res, ok).res.volumes)
    ensures Fits(CommitStep(id, pc, tracked, res, ok).res, spec, j, h, late')
  {
  }

  lemma CommitKeepsVolumes(l: Ledger, t: nat, ok: bool, j: string)
    requires Inv(l) && t in l.threads && l.threads[t].Committing?
    ensures var l' := Apply(l, Step(t, ok));
            Fits(l'.res, SpecOf(l.specs, j), j, HoldingOf(l.tracked, l.threads, j), Late(l'.threads, j))
  {
    var l' := Apply(l, Step(t, ok));
    var id, pc := l.threads[t].id, l.threads[t].cpc;
    assert l'.threads - {t} == l.threads - {t};
    assert LateOn(l.threads[t], id);
    if t in l'.threads {
      assert LateOn(l'.threads[t], id);
    }
    if j != id || t in l'.threads {
      LateStays(l.threads, l'.threads, t, j);
    } else if pc.LateRelease? {
      ReleasedOrLate(l, l', t, id);
    }
    CommitFits(l.res, SpecOf(l.specs, j), j, HoldingOf(l.tracked, l.threads, j), Late(l.threads, j), id, pc, l.tracked,
        ok, Late(l'.threads, j));
  }

  lemma ReleasedOrLate(l: Ledger, l': Ledger, t: nat, id: string)
    requires MarksOk(l.res.marks, l.threads) && t in l.threads && l.threads[t] == Committing(id, LateRelease)
    requires l'.threads == l.threads - {t} && l'.res.volumes == Release(l.res, id).volumes
    ensures id in l'.res.volumes ==> Late(l'.threads, id)
  {
    if Count(l.res.marks, id) > 0 {
      assert |CopyingOn(l.threads, id)| > 0;
      var u :| u in CopyingOn(l.threads, id);
      assert u in l'.threads && LateOn(l'.threads[u], id);
    }
  }

  lemma CommitKeeps(l: Ledger, t: nat, ok: bool)
    requires Inv(l) && t in l.threads && l.threads[t].Committing?
    ensures Inv(Apply(l, Step(t, ok)))
  {
    var l' := Apply(l, Step(t, ok));
    assert l'.threads - {t} == l.threads - {t};
    CommitKeepsMarks(l, t, ok);
    CommitHoldings(l, l', t);
    forall j ensures Fits(l'.res, SpecOf(l'.specs, j), j, HoldingOf(l'.tracked, l'.threads, j), Late(l'.threads, j)) {
      CommitKeepsVolumes(l, t, ok, j);
    }
  }

  // ----- Threads that start -----

  lemma NewThread(threads: map<nat, Thread>, t: nat, th: Thread)
    requires t !in threads
    ensures threads[t := th] - {t} == threads - {t}
    ensures !th.Committing? || th.cpc.Mark? ==> forall j :: CopyingOn(threads[t := th], j) == CopyingOn(threads, j)
    ensures forall j :: !LateOn(th, j) ==> (Late(threads[t := th], j) <==> Late(threads, j))
  {
    var threads' := threads[t := th];
    if !th.Committing? || th.cpc.Mark? {
      forall j ensures CopyingOn(threads', j) == CopyingOn(threads, j) {
        CopyingStays(threads, threads', t, j);
      }
    }
    forall j | !LateOn(th, j) ensures Late(threads', j) <==> Late(threads, j) {
      LateStays(threads, threads', t, j);
    }
  }

  lemma CommitStartKeeps(l: Ledger, t: nat, id: string)
    requires Inv(l) && t !in l.threads && id in l.specs && id in l.tracked
    ensures Inv(l.(threads := l.threads[t := Committing(id, Mark)]))
  {
    var l' := l.(threads := l.threads[t := Committing(id, Mark)]);
    NewThread(l.threads, t, Committing(id, Mark));
    CommitHoldings(l, l', t);
    assert MarksOk(l'.res.marks, l'.threads);
    forall j ensures Fits(l'.res, SpecOf(l'.specs, j), j, HoldingOf(l'.tracked, l'.threads, j), Late(l'.threads, j)) {
      assert Fits(l.res, SpecOf(l.specs, j), j, HoldingOf(l.tracked, l.threads, j), Late(l.threads, j));
      if j == id {
        assert LateOn(l'.threads[t], id);
      }
    }
  }

  lemma CreateStartKeeps(l: Ledger, t: nat, id: string, spec: Spec)
    requires Inv(l) && t !in l.threads && id !in l.specs
    ensures Inv(Apply(l, Create(t, id, spec)))
  {
    var th := Creating(id, BootVolume);
    var l' := Apply(l, Create(t, id, spec));
    NewThread(l.threads, t, th);
    forall u | u in l.threads ensures !Owns(l.threads[u], id) {
      assert Known(l.threads[u], l.specs);
    }
    assert OwnersOk(l'.tracked, l'.threads);
    forall j ensures Fits(l'.res, SpecOf(l'.specs, j), j, HoldingOf(l'.tracked, l'.threads, j), Late(l'.threads, j)) {
      assert Fits(l.res, SpecOf(l.specs, j), j, HoldingOf(l.tracked, l.threads, j), Late(l.threads, j));
      if j == id {
        HoldingNone(l.tracked, l.threads, id);
        HoldingIs(l'.tracked, l'.threads, t, id);
      } else {
        HoldingStays(l.tracked, l.threads, l'.tracked, l'.threads, t, j);
      }
    }
    assert MarksOk(l'.res.marks, l'.threads);
  }

  /** Taking runs out of the registry, into a thread that starts with all they hold. */
  lemma TakeKeeps(l: Ledger, t: nat, th: Thread, ids: set<string>)
    requires Inv(l) && t !in l.threads && ids <= l.tracked && Known(th, l.specs) && Tidy(th) && !th.Committing?
    requires forall id :: Owns(th, id) <==> id in ids
    requires forall id | id in ids :: Fits(l.res, SpecOf(l.specs, id), id, Holds(th, id), Late(l.threads, id))
    ensures Inv(l.(threads := l.threads[t := th], tracked := l.tracked - ids))
  {
    var l' := l.(threads := l.threads[t := th], tracked := l.tracked - ids);
    NewThread(l.threads, t, th);
    assert OwnersOk(l'.tracked, l'.threads);
    forall j ensures Fits(l'.res, SpecOf(l'.specs, j), j, HoldingOf(l'.tracked, l'.threads, j), Late(l'.threads, j)) {
      assert Fits(l.res, SpecOf(l.specs, j), j, HoldingOf(l.tracked, l.threads, j), Late(l.threads, j));
      if j in ids {
        HoldingIs(l'.tracked, l'.threads, t, j);
      } else {
        HoldingStays(l.tracked, l.threads, l'.tracked, l'.threads, t, j);
      }
    }
    assert MarksOk(l'.res.marks, l'.threads);
  }

  lemma DestroyStartKeeps(l: Ledger, t: nat, id: string)
    requires Inv(l) && t !in l.threads && id in l.tracked
    ensures Inv(Apply(l, Destroy(t, id)))
  {
    assert Fits(l.res, SpecOf(l.specs, id), id, HoldingOf(l.tracked, l.threads, id), Late(l.threads, id));
    TakeKeeps(l, t, Destroying(id, Remove), {id});
  }

  lemma ReapStartKeeps(l: Ledger, t: nat, q: seq<string>)
    requires Inv(l) && t !in l.threads && q != [] && Distinct(q) && forall id | id in q ::
             id in l.tracked && id in l.specs
    ensures Inv(Apply(l, Reap(t, q)))
  {
    var th := Reaping(q, ReapActions(l.specs[q[0]]));
    forall id | id in q ensures Fits(l.res, SpecOf(l.specs, id), id, Holds(th, id), Late(l.threads, id)) {
      assert Fits(l.res, SpecOf(l.specs, id), id, HoldingOf(l.tracked, l.threads, id), Late(l.threads, id));
      ReapActionsFit(l.res, SpecOf(l.specs, id), id, Late(l.threads, id));
    }
    TakeKeeps(l, t, th, set id | id in q);
  }

  // ----- All events, all runs -----

  lemma ApplyKeeps(l: Ledger, e: Event)
    requires Inv(l)
    ensures Inv(Apply(l, e))
  {
    if Apply(l, e) != l {
      match e
      case Create(t, id, spec) => CreateStartKeeps(l, t, id, spec);
      case Destroy(t, id) => DestroyStartKeeps(l, t, id);
      case Reap(t, q) => ReapStartKeeps(l, t, q);
      case CommitWarm(t, id) => CommitStartKeeps(l, t, id);
      case Step(t, ok) => StepKeeps(l, t, ok);
    }
  }

  lemma StepKeeps(l: Ledger, t: nat, ok: bool)
    requires Inv(l) && t in l.threads
    ensures Inv(Apply(l, Step(t, ok)))
  {
    match l.threads[t]
    case Creating(_, _) => CreateKeeps(l, t, ok);
    case Destroying(_, _) => DestroyKeeps(l, t, ok);
    case Reaping(_, todo) => if todo == [] { ReapNextKeeps(l, t, ok); } else { ReapCallKeeps(l, t, ok); }
    case Committing(_, _) => CommitKeeps(l, t, ok);
  }

  lemma {:induction false} RunKeeps(l: Ledger, es: seq<Event>)
    requires Inv(l)
    ensures Inv(Run(l, es))
    decreases |es|
  {
    if es != [] {
      ApplyKeeps(l, es[0]);
      RunKeeps(Apply(l, es[0]), es[1..]);
    }
  }

  lemma EmptyKeeps()
    ensures Inv(EMPTY)
  {
    forall id ensures HoldingOf(EMPTY.tracked, EMPTY.threads, id) == NOTHING && CopyingOn(EMPTY.threads, id) == {} {
      HoldingNone(EMPTY.tracked, EMPTY.threads, id);
    }
  }
}
