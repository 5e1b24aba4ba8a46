/** What the lease protocol guarantees over every trace. */
module LeaseTheorems {
  import opened Prelude
  import opened Lease
  import opened LeaseTrace

  lemma Reachable(clock: int, es: seq<Event>)
    ensures Inv(Run(Initial(clock), es))
  {
    RunKeeps(Initial(clock), es);
  }

  /** Mutual exclusion: while a tracked run has an active lease, every open exec or write
      on it was admitted with exactly that lease's owner and generation. */
  lemma MutualExclusion(clock: int, es: seq<Event>, id: string, now: int, sid: nat)
    requires var s := Run(Initial(clock), es);
             && id in s.tracked && now >= s.clock && ActiveLease(s.tracked[id], now).Some?
             && sid in s.sessions && s.sessions[sid].run == id
    ensures var s := Run(Initial(clock), es);
            var l := ActiveLease(s.tracked[id], now).value;
            s.sessions[sid].cred == Credential(l.holder, l.generation)
  {
    Reachable(clock, es);
    var s := Run(Initial(clock), es);
    assert RunOk(s, id, s.tracked[id]);
  }

  /** The in-flight counter: open sessions, plus those that ended while a Destroy held
      the run out of the registry. */
  lemma CounterIsExact(clock: int, es: seq<Event>, id: string)
    requires id in Run(Initial(clock), es).tracked
    ensures var s := Run(Initial(clock), es);
            s.tracked[id].execs == |SessionsOn(s.sessions, id)| + Stranded(s, id)
  {
    Reachable(clock, es);
    var s := Run(Initial(clock), es);
    assert RunOk(s, id, s.tracked[id]);
  }

  /** A sound request is refused as busy exactly when a session is open on the run or was
      stranded; and a grant finds no session open. */
  lemma BusyIff(clock: int, es: seq<Event>, id: string, owner: string, ttl: int, now: int)
    requires var s := Run(Initial(clock), es);
             && id in s.tracked && GoodRequest(owner, ttl) && now >= s.clock
             && (ActiveLease(s.tracked[id], now).Some? ==> ActiveLease(s.tracked[id], now).value.holder == owner)
    ensures var s := Run(Initial(clock), es);
            var a := Acquire(s.tracked, id, owner, ttl, now).1;
            && (a == Err(Busy) <==> SessionsOn(s.sessions, id) != {} || Stranded(s, id) > 0)
            && (a.Ok? <==> SessionsOn(s.sessions, id) == {} && Stranded(s, id) == 0)
  {
    CounterIsExact(clock, es, id);
  }

  // ----- Stranded sessions -----

  /** A run as the registry or its holder has it. */
  function RunAt(s: Machine, id: string): Option<RunState> {
    if id in s.tracked then Some(s.tracked[id]) else if id in s.held then Some(s.held[id]) else None
  }

  /** How many sessions a run counts that are no longer open. */
  function Surplus(s: Machine, id: string): int {
    if RunAt(s, id).Some? then RunAt(s, id).value.execs - |SessionsOn(s.sessions, id)| else 0
  }

  lemma SurplusIsStranded(s: Machine, id: string)
    requires Inv(s) && RunAt(s, id).Some?
    ensures Surplus(s, id) == Stranded(s, id)
  {
    assert RunOk(s, id, RunAt(s, id).value);
  }

  /** The counter of a run drifts from its open sessions at exactly one kind of event: one
      of its sessions ends while the run is out of the registry; and it never drifts back. */
  lemma CounterDriftsIff(clock: int, es: seq<Event>, e: Event, id: string)
    requires var s := Run(Initial(clock), es); RunAt(s, id).Some? && RunAt(Apply(s, e), id).Some?
    ensures var s := Run(Initial(clock), es);
            && Surplus(s, id) <= Surplus(Apply(s, e), id)
            && (Surplus(s, id) < Surplus(Apply(s, e), id) <==>
                  e.EndSession? && e.sid in s.sessions && s.sessions[e.sid].run == id && id in s.held)
  {
    Reachable(clock, es);
    var s := Run(Initial(clock), es);
    ApplyKeeps(s, e);
    SurplusIsStranded(s, id);
    SurplusIsStranded(Apply(s, e), id);
    StrandedIff(s, e, id);
  }

  /** The step that strands a session. */
  lemma StrandedIff(s: Machine, e: Event, id: string)
    ensures Stranded(Apply(s, e), id) ==
            Stranded(s, id) + if e.EndSession? && e.sid in s.sessions && s.sessions[e.sid].run == id
                && id in s.held then 1 else 0
  {
  }

  lemma {:induction false} StrandedGrows(s: Machine, es: seq<Event>, id: string)
    ensures Stranded(Run(s, es), id) >= Stranded(s, id)
    decreases |es|
  {
    if es != [] {
      StrandedIff(s, es[0], id);
      StrandedGrows(Apply(s, es[0]), es[1..], id);
    }
  }

  /** Once a session is stranded, that run is never leased again. */
  lemma StrandedBlocksForever(clock: int, es: seq<Event>, more: seq<Event>, id: string, owner: string, ttl: int,
      now: int)
    requires Stranded(Run(Initial(clock), es), id) > 0
    ensures Acquire(Run(Run(Initial(clock), es), more).tracked, id, owner, ttl, now).1.Err?
  {
    Reachable(clock, es);
    var s := Run(Run(Initial(clock), es), more);
    RunKeeps(Run(Initial(clock), es), more);
    StrandedGrows(Run(Initial(clock), es), more, id);
    if id in s.tracked {
      assert RunOk(s, id, s.tracked[id]);
    }
  }

  /** It does happen: an exec ends while a Destroy that will fail holds the run. */
  lemma StrandingHappens(id: string, owner: string, ttl: int, now: int)
    requires GoodRequest(owner, ttl)
    ensures var s := Run(Initial(0),
            [Track(id, ""), BeginSession(id, Credential("", 0), 0), Untrack(id), EndSession(0), Retrack(id)]);
            && id in s.tracked && s.sessions == map[]
            && Acquire(s.tracked, id, owner, ttl, now).1 == Err(Busy)
  {
    var s1 := Apply(Initial(0), Track(id, ""));
    var s2 := Apply(s1, BeginSession(id, Credential("", 0), 0));
    var s3 := Apply(s2, Untrack(id));
    var s4 := Apply(s3, EndSession(0));
    var s5 := Apply(s4, Retrack(id));
    assert s5.tracked[id].execs == 1;
    RunFive(Initial(0), Track(id, ""), BeginSession(id, Credential("", 0), 0), Untrack(id), EndSession(0), Retrack(id));
  }

  lemma RunFive(s: Machine, a: Event, b: Event, c: Event, d: Event, e: Event)
    ensures Run(s, [a, b, c, d, e]) == Apply(Apply(Apply(Apply(Apply(s, a), b), c), d), e)
  {
    RunCons(s, a, [b, c, d, e]);
    RunCons(Apply(s, a), b, [c, d, e]);
    RunCons(Apply(Apply(s, a), b), c, [d, e]);
    RunCons(Apply(Apply(Apply(s, a), b), c), d, [e]);
    RunCons(Apply(Apply(Apply(Apply(s, a), b), c), d), e, []);
  }

  lemma RunCons(s: Machine, e: Event, es: seq<Event>)
    ensures Run(s, [e] + es) == Run(Apply(s, e), es)
  {
    assert ([e] + es)[1..] == es;
  }

  // ----- Generations -----

  /** The run's counter has reached `g`, wherever the run is; it never goes back. */
  ghost predicate Past(s: Machine, id: string, g: nat) {
    && id in s.used
    && (id in s.tracked ==> s.tracked[id].leaseGen >= g)
    && (id in s.held ==> s.held[id].leaseGen >= g)
  }

  lemma PastStays(s: Machine, e: Event, id: string, g: nat)
    requires Past(s, id, g)
    ensures Past(Apply(s, e), id, g)
  {
  }

  lemma {:induction false} PastStaysForever(s: Machine, es: seq<Event>, id: string, g: nat)
    requires Past(s, id, g)
    ensures Past(Run(s, es), id, g)
    decreases |es|
  {
    if es != [] {
      PastStays(s, es[0], id, g);
      PastStaysForever(Apply(s, es[0]), es[1..], id, g);
    }
  }

  /** Generations strictly increase over a run's whole life, failed destroys included. */
  lemma GrantsIncrease(clock: int, es: seq<Event>, id: string, owner: string, ttl: int, wait: nat, more: seq<Event>,
      owner': string, ttl': int, now': int)
    requires var s := Run(Initial(clock), es); Acquire(s.tracked, id, owner, ttl, s.clock + wait).1.Ok?
    requires var s := Run(Apply(Run(Initial(clock), es), AcquireLease(id, owner, ttl, wait)), more);
             Acquire(s.tracked, id, owner', ttl', now').1.Ok?
    ensures var s := Run(Initial(clock), es);
            var s' := Run(Apply(s, AcquireLease(id, owner, ttl, wait)), more);
            Acquire(s.tracked, id, owner, ttl, s.clock + wait).1.value.generation
              < Acquire(s'.tracked, id, owner', ttl', now').1.value.generation
  {
    Reachable(clock, es);
    var s := Run(Initial(clock), es);
    var s1 := Apply(s, AcquireLease(id, owner, ttl, wait));
    PastStaysForever(s1, more, id, s.tracked[id].leaseGen + 1);
  }

  /** A credential older than some grant is dead: from then on it never renews and never
      releases, and it is admitted only where anyone is, when no lease is active. */
  lemma StaleStaysDead(clock: int, es: seq<Event>, id: string, cred: Credential, more: seq<Event>, ttl: int, now: int,
      later: int)
    requires var s := Run(Initial(clock), es);
             (id in s.tracked && cred.generation < s.tracked[id].leaseGen)
                 || (id in s.held && cred.generation < s.held[id].leaseGen)
    ensures var s := Run(Run(Initial(clock), es), more);
            && Renew(s.tracked, id, cred, ttl, now, later).1.Err?
            && Lease.Release(s.tracked, id, cred).1.Err?
            && (Begin(s.tracked, id, cred, now).1.Ok? <==> id in s.tracked && ActiveLease(s.tracked[id], now).None?)
  {
    Reachable(clock, es);
    var s0 := Run(Initial(clock), es);
    RunKeeps(s0, more);
    PastStaysForever(s0, more, id, cred.generation + 1);
    var s := Run(s0, more);
    if id in s.tracked {
      assert RunOk(s, id, s.tracked[id]);
    }
  }

  /** And it is admitted there: a lease granted and given back twice over, and then the
      first credential comes again. */
  lemma StaleIsAdmitted(id: string, owner: string, other: string, ttl: int)
    requires GoodRequest(owner, ttl) && GoodRequest(other, ttl)
    ensures var s := Run(Initial(0), [Track(id, ""), AcquireLease(id, owner, ttl, 0),
                                      ReleaseLease(id, Credential(owner, 1)), AcquireLease(id, other, ttl, 0),
                                      ReleaseLease(id, Credential(other, 2))]);
            && id in s.tracked && s.tracked[id].leaseGen == 2
            && Begin(s.tracked, id, Credential(owner, 1), s.clock).1.Ok?
  {
    var s1 := Apply(Initial(0), Track(id, ""));
    var s2 := Apply(s1, AcquireLease(id, owner, ttl, 0));
    assert s2.tracked[id].lease == Some(LeaseState(owner, 1, ttl)) && s2.tracked[id].leaseGen == 1;
    var s3 := Apply(s2, ReleaseLease(id, Credential(owner, 1)));
    var s4 := Apply(s3, AcquireLease(id, other, ttl, 0));
    assert s4.tracked[id].lease == Some(LeaseState(other, 2, ttl)) && s4.tracked[id].leaseGen == 2;
    var s5 := Apply(s4, ReleaseLease(id, Credential(other, 2)));
    RunFive(Initial(0), Track(id, ""), AcquireLease(id, owner, ttl, 0), ReleaseLease(id, Credential(owner, 1)),
            AcquireLease(id, other, ttl, 0), ReleaseLease(id, Credential(other, 2)));
  }
}
