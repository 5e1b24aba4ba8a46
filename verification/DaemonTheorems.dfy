/** What the lease protocol and the run lifecycle promise together. */
module DaemonTheorems {
  import L = Lifecycle
  import S = LifecycleSafety
  import Lease
  import T = LeaseTrace
  import LeaseTheorems
  import opened Daemon

  // ----- Both halves run their own protocol -----

  /** Every run of the daemon is, for its runs, a run of the lifecycle. */
  lemma {:induction false} LifeHalf(d: State, es: seq<Event>) returns (life: seq<L.Event>)
    ensures Run(d, es).runs == L.Run(d.runs, life)
    decreases |es|
  {
    life := [];
    if es != [] {
      life := LifeHalf(Apply(d, es[0]), es[1..]);
      if es[0].Life? {
        assert ([es[0].step] + life)[1..] == life;
        life := [es[0].step] + life;
      }
    }
  }

  lemma {:induction false} Appended(s: T.Machine, xs: seq<T.Event>, ys: seq<T.Event>)
    ensures T.Run(s, xs + ys) == T.Run(T.Run(s, xs), ys)
    decreases |xs|
  {
    if xs == [] {
      assert xs + ys == ys;
    } else {
      assert (xs + ys)[1..] == xs[1..] + ys;
      Appended(T.Apply(s, xs[0]), xs[1..], ys);
    }
  }

  lemma One(s: T.Machine, e: T.Event)
    ensures T.Run(s, [e]) == T.Apply(s, e)
  {
    assert T.Run(s, [e]) == T.Run(T.Apply(s, e), []);
  }

  lemma {:induction false} DroppedTrace(s: T.Machine, q: seq<string>) returns (trace: seq<T.Event>)
    ensures Dropped(s, q) == T.Run(s, trace)
    decreases |q|
  {
    trace := [];
    if q != [] {
      var s1 := T.Apply(s, T.Untrack(q[0]));
      trace := DroppedTrace(T.Apply(s1, T.Forget(q[0])), q[1..]);
      One(s, T.Untrack(q[0]));
      One(s1, T.Forget(q[0]));
      Appended(s1, [T.Forget(q[0])], trace);
      Appended(s, [T.Untrack(q[0])], [T.Forget(q[0])] + trace);
      trace := [T.Untrack(q[0])] + ([T.Forget(q[0])] + trace);
    }
  }

  lemma EchoTrace(runs: L.Ledger, s: T.Machine, e: L.Event) returns (trace: seq<T.Event>)
    ensures Echo(runs, s, e) == T.Run(s, trace)
  {
    if e.Reap? && L.Apply(runs, e) != runs {
      trace := DroppedTrace(s, e.expired);
    } else if Echo(runs, s, e) == s {
      trace := [];
    } else {
      trace := [match e
                case Destroy(_, id) => T.Untrack(id)
                case Step(t, ok) =>
                  var th := runs.threads[t];
                  if th.Creating? then T.Track(th.id, th.id) else if ok then T.Forget(th.id) else T.Retrack(th.id)
                case _ => T.Untrack("")];
      One(s, trace[0]);
    }
  }

  /** And for its leases, a trace of the lease protocol: every theorem about either holds
      of the daemon. */
  lemma {:induction false} LeaseHalf(d: State, es: seq<Event>) returns (trace: seq<T.Event>)
    ensures Run(d, es).leases == T.Run(d.leases, trace)
    decreases |es|
  {
    trace := [];
    if es != [] {
      var d1 := Apply(d, es[0]);
      var rest := LeaseHalf(d1, es[1..]);
      var first: seq<T.Event> := [];
      if es[0].Life? {
        first := EchoTrace(d.runs, d.leases, es[0].step);
      } else if IsCall(es[0].call) {
        One(d.leases, es[0].call);
        first := [es[0].call];
      }
      Appended(d.leases, first, rest);
      trace := first + rest;
    }
  }

  // ----- Promises that need both -----

  /** One registry: a run can be leased or entered exactly while the lifecycle tracks it. */
  lemma OneRegistry(clock: int, es: seq<Event>, id: string)
    ensures var d := Run(Initial(clock), es); id in d.leases.tracked <==> id in d.runs.tracked
  {
    Reachable(clock, es);
  }

  lemma TrackedIsLive(clock: int, es: seq<Event>, id: string)
    requires id in Run(Initial(clock), es).runs.tracked
    ensures var d := Run(Initial(clock), es);
            id in d.runs.res.live && L.Count(d.runs.res.removals, id) == 0
  {
    Reachable(clock, es);
    var r := Run(Initial(clock), es).runs;
    assert S.Fits(r.res, S.SpecOf(r.specs, id), id, S.HoldingOf(r.tracked, r.threads, id), S.Late(r.threads, id));
  }

  /** Whoever is admitted, or granted a lease, has a run whose container exists and was
      never removed. */
  lemma AdmittedIsLive(clock: int, es: seq<Event>, id: string, cred: Lease.Credential, owner: string, ttl: int,
      now: int)
    requires var s := Run(Initial(clock), es).leases.tracked;
             Lease.Begin(s, id, cred, now).1.Ok? || Lease.Acquire(s, id, owner, ttl, now).1.Ok?
    ensures var d := Run(Initial(clock), es);
            id in d.runs.res.live && L.Count(d.runs.res.removals, id) == 0
  {
    OneRegistry(clock, es, id);
    TrackedIsLive(clock, es, id);
  }

  /** The exact moment a session is stranded: it ends while a Destroy is waiting for the
      removal of its run's container. */
  lemma StrandedIff(clock: int, es: seq<Event>, sid: nat, id: string)
    requires var s := Run(Initial(clock), es).leases; sid in s.sessions && s.sessions[sid].run == id
    ensures var d := Run(Initial(clock), es);
            var d' := Apply(d, Call(T.EndSession(sid)));
            T.Stranded(d'.leases, id) == T.Stranded(d.leases, id) + 1 <==>
              exists t :: t in d.runs.threads && d.runs.threads[t] == L.Destroying(id, L.Remove)
  {
    Reachable(clock, es);
    var d := Run(Initial(clock), es);
    LeaseTheorems.StrandedIff(d.leases, T.EndSession(sid), id);
    assert id in d.leases.held <==> Removing(d.runs.threads, id);
    if t :| t in d.runs.threads && d.runs.threads[t] == L.Destroying(id, L.Remove) {
      assert RemovesIt(d.runs.threads[t], id);
    }
  }

  /** Mutual exclusion, in the whole daemon: while a run has an active lease, the lifecycle
      tracks it, its container exists, and every open exec or write on it holds exactly
      that lease. */
  lemma DaemonMutualExclusion(clock: int, es: seq<Event>, id: string, now: int, sid: nat)
    requires var d := Run(Initial(clock), es);
             && id in d.leases.tracked && now >= d.leases.clock
             && Lease.ActiveLease(d.leases.tracked[id], now).Some?
             && sid in d.leases.sessions && d.leases.sessions[sid].run == id
    ensures var d := Run(Initial(clock), es);
            var l := Lease.ActiveLease(d.leases.tracked[id], now).value;
            && id in d.runs.tracked && id in d.runs.res.live
            && d.leases.sessions[sid].cred == Lease.Credential(l.holder, l.generation)
  {
    var trace := LeaseHalf(Initial(clock), es);
    LeaseTheorems.MutualExclusion(clock, trace, id, now, sid);
    OneRegistry(clock, es, id);
    TrackedIsLive(clock, es, id);
  }
}
