/** The lease protocol and the run lifecycle in one machine: runs enter and leave the
    registry by Create, Destroy and Reap, and leases, execs and writes happen on them
    meanwhile. */
module Daemon {
  import L = Lifecycle
  import S = LifecycleSafety
  import T = LeaseTrace

  datatype State = State(runs: L.Ledger, leases: T.Machine)

  datatype Event = Life(step: L.Event) | Call(call: T.Event)

  /** What a lifecycle event does to the registry the leases live in. */
  function Echo(runs: L.Ledger, leases: T.Machine, e: L.Event): T.Machine {
    match e
    case Create(_, _, _) => leases
    case CommitWarm(_, _) => leases
    case Destroy(t, id) =>
      if t in runs.threads || id !in runs.tracked then leases else T.Apply(leases, T.Untrack(id))
    case Reap(_, q) =>
      if L.Apply(runs, e) == runs then leases else Dropped(leases, q)
    case Step(t, ok) =>
      if t !in runs.threads then leases else StepEcho(runs.threads[t], leases, ok)
  }

  function StepEcho(th: L.Thread, leases: T.Machine, ok: bool): T.Machine {
    match th
    case Creating(id, Insert) => T.Apply(leases, T.Track(id, id))
    case Destroying(id, Remove) => T.Apply(leases, if ok then T.Forget(id) else T.Retrack(id))
    case _ => leases
  }

  /** Reaped runs leave for good. */
  function Dropped(leases: T.Machine, q: seq<string>): T.Machine
    decreases |q|
  {
    if q == [] then leases else Dropped(T.Apply(T.Apply(leases, T.Untrack(q[0])), T.Forget(q[0])), q[1..])
  }

  /** Callers lease, renew, release, exec and write; only the lifecycle moves runs. */
  predicate IsCall(e: T.Event) {
    e.AcquireLease? || e.RenewLease? || e.ReleaseLease? || e.BeginSession? || e.EndSession?
  }

  function Apply(d: State, e: Event): State {
    match e
    case Life(e) => State(L.Apply(d.runs, e), Echo(d.runs, d.leases, e))
    case Call(e) => if IsCall(e) then d.(leases := T.Apply(d.leases, e)) else d
  }

  function Run(d: State, es: seq<Event>): State
    decreases |es|
  {
    if es == [] then d else Run(Apply(d, es[0]), es[1..])
  }

  function Initial(clock: int): State {
    State(L.EMPTY, T.Initial(clock))
  }

  // ----- One registry -----

  predicate RemovesIt(th: L.Thread, id: string) {
    th == L.Destroying(id, L.Remove)
  }

  predicate CreatesIt(th: L.Thread, id: string) {
    th.Creating? && th.id == id
  }

  ghost predicate Removing(threads: map<nat, L.Thread>, id: string) {
    exists t :: t in threads && RemovesIt(threads[t], id)
  }

  ghost predicate BeingCreated(threads: map<nat, L.Thread>, id: string) {
    exists t :: t in threads && CreatesIt(threads[t], id)
  }

  /** Both halves speak of the same runs: tracked ones, and those a Destroy holds while it
      waits for the removal; a run still being created is new to the leases. */
  ghost predicate AgreeOn(tracked: set<string>, threads: map<nat, L.Thread>, known: set<string>, here: set<string>,
      held: set<string>, used: set<string>) {
    && here == tracked && used <= known
    && (forall id :: id in held <==> Removing(threads, id))
    && (forall id | BeingCreated(threads, id) :: id !in used)
  }

  ghost predicate Agree(runs: L.Ledger, leases: T.Machine) {
    AgreeOn(runs.tracked, runs.threads, runs.specs.Keys, leases.tracked.Keys, leases.held.Keys, leases.used)
  }

  ghost predicate Inv(d: State) {
    S.Inv(d.runs) && T.Inv(d.leases) && Agree(d.runs, d.leases)
  }

  lemma CallsKeepKeys(s: T.Machine, e: T.Event)
    requires IsCall(e)
    ensures var s' := T.Apply(s, e); s'.tracked.Keys == s.tracked.Keys && s'.held == s.held && s'.used == s.used
  {
  }

  lemma OneDropped(s: T.Machine, id: string)
    requires T.Inv(s) && id !in s.held
    ensures var s' := T.Apply(T.Apply(s, T.Untrack(id)), T.Forget(id));
            T.Inv(s') && s'.tracked.Keys == s.tracked.Keys - {id} && s'.held == s.held && s'.used == s.used
  {
    T.ApplyKeeps(s, T.Untrack(id));
    T.ApplyKeeps(T.Apply(s, T.Untrack(id)), T.Forget(id));
    UntrackForget(s, id);
  }

  lemma UntrackForget(s: T.Machine, id: string)
    requires id !in s.held
    ensures T.Apply(T.Apply(s, T.Untrack(id)), T.Forget(id)) == s.(tracked := s.tracked - {id})
  {
    assert id !in s.tracked ==> s.tracked - {id} == s.tracked;
    assert id in s.tracked ==> s.held[id := s.tracked[id]] - {id} == s.held;
    assert s.held - {id} == s.held;
  }

  lemma {:induction false} DroppedIs(s: T.Machine, q: seq<string>)
    requires T.Inv(s) && forall id | id in q :: id !in s.held
    ensures var s' := Dropped(s, q);
            T.Inv(s') && s'.tracked.Keys == (s.tracked.Keys - set id | id in q) && s'.held == s.held
                && s'.used == s.used
    decreases |q|
  {
    if q != [] {
      OneDropped(s, q[0]);
      DroppedIs(T.Apply(T.Apply(s, T.Untrack(q[0])), T.Forget(q[0])), q[1..]);
      assert q == [q[0]] + q[1..];
    }
  }

  /** Only thread `t` can have changed who is being removed or created. */
  lemma OneThread(threads: map<nat, L.Thread>, threads': map<nat, L.Thread>, t: nat)
    requires threads' - {t} == threads - {t}
    ensures forall id | !(t in threads && RemovesIt(threads[t], id))
            && !(t in threads' && RemovesIt(threads'[t], id)) ::
              Removing(threads', id) <==> Removing(threads, id)
    ensures forall id | BeingCreated(threads', id) && !(t in threads' && CreatesIt(threads'[t], id)) ::
            BeingCreated(threads, id)
  {
    forall u | u != t ensures (u in threads' <==> u in threads) && (u in threads ==> threads'[u] == threads[u]) {
      assert u in threads' - {t} <==> u in threads - {t};
      assert u in threads && u in threads' ==> (threads' - {t})[u] == (threads - {t})[u];
    }
    forall id | !(t in threads && RemovesIt(threads[t], id)) && !(t in threads' && RemovesIt(threads'[t], id))
      ensures Removing(threads', id) <==> Removing(threads, id)
    {
      if u :| u in threads && RemovesIt(threads[u], id) {
        assert u in threads' && RemovesIt(threads'[u], id);
      }
    }
  }

  /** A thread that was and stays neither a remover nor a new creator. */
  lemma QuietAgrees(tracked: set<string>, threads: map<nat, L.Thread>, threads': map<nat, L.Thread>, t: nat,
                    known: set<string>, held: set<string>, used: set<string>)
    requires AgreeOn(tracked, threads, known, tracked, held, used) && threads' - {t} == threads - {t}
    requires t in threads ==> !threads[t].Destroying? || !threads[t].dpc.Remove?
    requires t in threads' ==> !threads'[t].Destroying? || !threads'[t].dpc.Remove?
    requires t in threads' && threads'[t].Creating? ==>
             t in threads && threads[t].Creating? && threads[t].id == threads'[t].id
    ensures AgreeOn(tracked, threads', known, tracked, held, used)
  {
    OneThread(threads, threads', t);
    forall id | BeingCreated(threads', id) ensures BeingCreated(threads, id) {
      if t in threads' && CreatesIt(threads'[t], id) {
        assert CreatesIt(threads[t], id);
      }
    }
  }

  /** The only remover of a run is done with it. */
  lemma RemoverLeaves(runs: L.Ledger, threads': map<nat, L.Thread>, t: nat, id: string, tracked': set<string>,
      held: set<string>, used: set<string>)
    requires S.OwnersOk(runs.tracked, runs.threads)
             && AgreeOn(runs.tracked, runs.threads, runs.specs.Keys, runs.tracked, held, used)
    requires t in runs.threads && RemovesIt(runs.threads[t], id) && threads' - {t} == runs.threads - {t}
    requires t in threads' ==> threads'[t].Destroying? && threads'[t].dpc.Drop?
    ensures id in held && AgreeOn(tracked', threads', runs.specs.Keys, tracked', held - {id}, used)
  {
    OneThread(runs.threads, threads', t);
    assert Removing(runs.threads, id);
    forall u | u in threads' ensures !RemovesIt(threads'[u], id) {
      if u != t {
        assert u in threads' - {t} && (threads' - {t})[u] == (runs.threads - {t})[u];
        assert u in runs.threads && S.Owns(runs.threads[t], id);
        assert !S.Owns(runs.threads[u], id) && threads'[u] == runs.threads[u];
      }
    }
  }

  lemma RemoveAgrees(runs: L.Ledger, s: T.Machine, t: nat, id: string, ok: bool)
    requires S.OwnersOk(runs.tracked, runs.threads) && Agree(runs, s) && t in runs.threads
             && RemovesIt(runs.threads[t], id) && id in runs.specs
    ensures Agree(L.Apply(runs, L.Step(t, ok)), T.Apply(s, if ok then T.Forget(id) else T.Retrack(id)))
  {
    var runs' := L.Apply(runs, L.Step(t, ok));
    assert runs'.threads - {t} == runs.threads - {t};
    RemoverLeaves(runs, runs'.threads, t, id, runs'.tracked, s.held.Keys, s.used);
    var s' := T.Apply(s, if ok then T.Forget(id) else T.Retrack(id));
    assert s'.held.Keys == s.held.Keys - {id} && s'.used == s.used;
    assert s'.tracked.Keys == runs'.tracked;
  }

  lemma InsertAgrees(runs: L.Ledger, s: T.Machine, t: nat, id: string, ok: bool)
    requires S.OwnersOk(runs.tracked, runs.threads) && Agree(runs, s) && t in runs.threads
             && runs.threads[t] == L.Creating(id, L.Insert) && id in runs.specs
    ensures Agree(L.Apply(runs, L.Step(t, ok)), T.Apply(s, T.Track(id, id)))
  {
    var runs' := L.Apply(runs, L.Step(t, ok));
    assert runs'.threads == runs.threads - {t} && runs'.threads - {t} == runs.threads - {t};
    assert CreatesIt(runs.threads[t], id) && BeingCreated(runs.threads, id);
    OneThread(runs.threads, runs'.threads, t);
    forall j | BeingCreated(runs'.threads, j) ensures j !in s.used + {id} {
      var u :| u in runs'.threads && CreatesIt(runs'.threads[u], j);
      assert S.Owns(runs.threads[t], id) && S.Owns(runs.threads[u], j);
    }
    var s' := T.Apply(s, T.Track(id, id));
    assert s'.tracked.Keys == s.tracked.Keys + {id} && s'.used == s.used + {id} && s'.held == s.held;
  }

  lemma StepAgrees(runs: L.Ledger, s: T.Machine, t: nat, ok: bool)
    requires S.Inv(runs) && Agree(runs, s) && t in runs.threads
    ensures Agree(L.Apply(runs, L.Step(t, ok)), StepEcho(runs.threads[t], s, ok))
  {
    var th := runs.threads[t];
    assert L.Known(th, runs.specs);
    if th.Creating? && th.pc.Insert? {
      InsertAgrees(runs, s, t, th.id, ok);
    } else if th.Destroying? && th.dpc.Remove? {
      RemoveAgrees(runs, s, t, th.id, ok);
    } else {
      QuietStepAgrees(runs, s, t, ok);
    }
  }

  lemma QuietStepAgrees(runs: L.Ledger, s: T.Machine, t: nat, ok: bool)
    requires Agree(runs, s) && t in runs.threads && L.Known(runs.threads[t], runs.specs)
    requires !(runs.threads[t].Creating? && runs.threads[t].pc.Insert?)
             && !(runs.threads[t].Destroying? && runs.threads[t].dpc.Remove?)
    ensures Agree(L.Apply(runs, L.Step(t, ok)), s)
  {
    var runs' := L.Apply(runs, L.Step(t, ok));
    assert runs'.threads - {t} == runs.threads - {t};
    QuietNext(runs.threads[t], runs.specs, runs.tracked, runs.res, ok);
    QuietAgrees(runs.tracked, runs.threads, runs'.threads, t, runs.specs.Keys, s.held.Keys, s.used);
  }

  lemma QuietNext(th: L.Thread, specs: map<string, L.Spec>, tracked: set<string>, res: L.Res, ok: bool)
    requires L.Known(th, specs) && !(th.Creating? && th.pc.Insert?) && !(th.Destroying? && th.dpc.Remove?)
    ensures var m := L.Next(th, specs, tracked, res, ok);
            && m.tracked == tracked
            && (m.thread.Some? && m.thread.value.Destroying? ==> m.thread.value.dpc.Drop?)
            && (m.thread.Some? && m.thread.value.Creating? ==> th.Creating? && m.thread.value.id == th.id)
  {
  }

  lemma StartAgrees(runs: L.Ledger, s: T.Machine, e: L.Event)
    requires S.Inv(runs) && T.Inv(s) && Agree(runs, s) && !e.Step? && L.Apply(runs, e) != runs
    ensures Agree(L.Apply(runs, e), Echo(runs, s, e)) && T.Inv(Echo(runs, s, e))
  {
    match e
    case Create(t, id, spec) => CreateAgrees(runs, s, e);
    case Destroy(t, id) => DestroyAgrees(runs, s, t, id);
    case Reap(t, q) => ReapAgrees(runs, s, e);
    case CommitWarm(_, _) => CommitAgrees(runs, s, e);
  }

  lemma CreateAgrees(runs: L.Ledger, s: T.Machine, e: L.Event)
    requires Agree(runs, s) && e.Create? && L.Apply(runs, e) != runs
    ensures Agree(L.Apply(runs, e), s)
  {
    assert L.Apply(runs, e).threads - {e.t} == runs.threads - {e.t};
    OneThread(runs.threads, L.Apply(runs, e).threads, e.t);
  }

  lemma CommitAgrees(runs: L.Ledger, s: T.Machine, e: L.Event)
    requires Agree(runs, s) && e.CommitWarm? && L.Apply(runs, e) != runs
    ensures Agree(L.Apply(runs, e), s)
  {
    assert L.Apply(runs, e).threads - {e.t} == runs.threads - {e.t};
    OneThread(runs.threads, L.Apply(runs, e).threads, e.t);
  }

  lemma DestroyAgrees(runs: L.Ledger, s: T.Machine, t: nat, id: string)
    requires Agree(runs, s) && T.Inv(s) && t !in runs.threads && id in runs.tracked
    ensures Agree(L.Apply(runs, L.Destroy(t, id)), T.Apply(s, T.Untrack(id))) && T.Inv(T.Apply(s, T.Untrack(id)))
  {
    var runs' := L.Apply(runs, L.Destroy(t, id));
    assert runs'.threads - {t} == runs.threads - {t};
    OneThread(runs.threads, runs'.threads, t);
    assert RemovesIt(runs'.threads[t], id);
    T.ApplyKeeps(s, T.Untrack(id));
  }

  lemma ReapAgrees(runs: L.Ledger, s: T.Machine, e: L.Event)
    requires S.OwnersOk(runs.tracked, runs.threads) && Agree(runs, s) && T.Inv(s) && e.Reap? && L.Apply(runs, e) != runs
    ensures Agree(L.Apply(runs, e), Echo(runs, s, e)) && T.Inv(Echo(runs, s, e))
  {
    assert L.Apply(runs, e).threads - {e.t} == runs.threads - {e.t};
    OneThread(runs.threads, L.Apply(runs, e).threads, e.t);
    forall id | id in e.expired ensures id !in s.held {
      NotRemoving(runs, id);
    }
    DroppedIs(s, e.expired);
  }

  lemma NotRemoving(runs: L.Ledger, id: string)
    requires S.OwnersOk(runs.tracked, runs.threads) && id in runs.tracked
    ensures !Removing(runs.threads, id)
  {
    forall t | t in runs.threads ensures !RemovesIt(runs.threads[t], id) {
      assert !S.Owns(runs.threads[t], id);
    }
  }

  lemma ApplyKeeps(d: State, e: Event)
    requires Inv(d)
    ensures Inv(Apply(d, e))
  {
    match e
    case Call(c) =>
      if IsCall(c) {
        T.ApplyKeeps(d.leases, c);
        CallsKeepKeys(d.leases, c);
      }
    case Life(l) =>
      S.ApplyKeeps(d.runs, l);
      if l.Step? && l.t in d.runs.threads {
        StepAgrees(d.runs, d.leases, l.t, l.ok);
        StepEchoKeeps(d.runs.threads[l.t], d.leases, l.ok);
      } else if L.Apply(d.runs, l) != d.runs {
        StartAgrees(d.runs, d.leases, l);
      }
  }

  lemma StepEchoKeeps(th: L.Thread, s: T.Machine, ok: bool)
    requires T.Inv(s)
    ensures T.Inv(StepEcho(th, s, ok))
  {
    match th
    case Creating(id, Insert) => T.ApplyKeeps(s, T.Track(id, id));
    case Destroying(id, Remove) => T.ApplyKeeps(s, if ok then T.Forget(id) else T.Retrack(id));
    case _ =>
  }

  lemma {:induction false} RunKeeps(d: State, es: seq<Event>)
    requires Inv(d)
    ensures Inv(Run(d, es))
    decreases |es|
  {
    if es != [] {
      ApplyKeeps(d, es[0]);
      RunKeeps(Apply(d, es[0]), es[1..]);
    }
  }

  lemma Reachable(clock: int, es: seq<Event>)
    ensures Inv(Run(Initial(clock), es))
  {
    S.EmptyKeeps();
    RunKeeps(Initial(clock), es);
  }
}
