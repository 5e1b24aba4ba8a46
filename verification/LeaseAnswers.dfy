/** What callers are answered, told from the trace: who is admitted, who is granted what,
    and how long it lasts. */
module LeaseAnswers {
  import opened Prelude
  import opened Text
  import opened Lease
  import opened LeaseTrace
  import opened LeaseTheorems

  /** The longest time to live is 24 hours. */
  ghost predicate SoundRequest(owner: string, ttl: int) {
    (exists c | c in owner :: !IsSpace(c)) && 1 <= ttl <= 86_400_000_000_000
  }

  lemma {:induction false} BlankIff(s: string)
    ensures Blank(s) <==> forall c | c in s :: IsSpace(c)
    decreases |s|
  {
    if s != "" {
      if IsSpace(s[0]) {
        BlankIff(s[1..]);
        assert s == [s[0]] + s[1..];
      } else {
        assert s[0] in s;
        KeepsFirst(s);
      }
    }
  }

  lemma {:induction false} KeepsFirst(s: string)
    requires s != "" && !IsSpace(s[0])
    ensures TrimSpace(s) != ""
    decreases |s|
  {
    if IsSpace(s[|s| - 1]) {
      KeepsFirst(s[..|s| - 1]);
    }
  }

  // ----- What the trace remembers -----

  /** The container a run was first tracked with. */
  function TrackedWith(es: seq<Event>, id: string): Option<string>
    decreases |es|
  {
    if es == [] then None
    else if es[0].Track? && es[0].id == id then Some(es[0].containerId)
    else TrackedWith(es[1..], id)
  }

  /** A request for this run that is granted. */
  predicate Granted(s: Machine, e: Event, id: string) {
    e.AcquireLease? && e.id == id && Acquire(s.tracked, id, e.owner, e.ttl, s.clock + e.wait).1.Ok?
  }

  /** How many grants a run has had. */
  function Grants(s: Machine, es: seq<Event>, id: string): nat
    decreases |es|
  {
    if es == [] then 0
    else (if Granted(s, es[0], id) then 1 else 0) + Grants(Apply(s, es[0]), es[1..], id)
  }

  /** A run keeps its container and counts its grants, whoever has it; one that is gone
      stays gone. */
  ghost predicate Carried(s: Machine, s': Machine, id: string, grants: nat) {
    && id in s'.used
    && (RunAt(s, id).None? ==> RunAt(s', id).None?)
    && (RunAt(s, id).Some? && RunAt(s', id).Some? ==>
          && RunAt(s', id).value.containerId == RunAt(s, id).value.containerId
          && RunAt(s', id).value.leaseGen == RunAt(s, id).value.leaseGen + grants)
  }

  lemma StepCarries(s: Machine, e: Event, id: string)
    requires NamesOk(s) && id in s.used
    ensures Carried(s, Apply(s, e), id, if Granted(s, e, id) then 1 else 0)
  {
  }

  lemma {:induction false} RunCarries(s: Machine, es: seq<Event>, id: string)
    requires Inv(s) && id in s.used
    ensures Carried(s, Run(s, es), id, Grants(s, es, id))
    decreases |es|
  {
    if es != [] {
      ApplyKeeps(s, es[0]);
      StepCarries(s, es[0], id);
      RunCarries(Apply(s, es[0]), es[1..], id);
    }
  }

  lemma FirstStep(s: Machine, e: Event, id: string)
    requires NamesOk(s) && id !in s.used
    ensures !Granted(s, e, id)
    ensures if e.Track? && e.id == id then
              id in Apply(s, e).used && RunAt(Apply(s, e), id) == Some(RunState(e.containerId, None, 0, 0))
            else id !in Apply(s, e).used
  {
  }

  lemma {:induction false} Told(s: Machine, es: seq<Event>, id: string)
    requires Inv(s) && id !in s.used
    ensures RunAt(Run(s, es), id).Some? ==>
              && TrackedWith(es, id) == Some(RunAt(Run(s, es), id).value.containerId)
              && Grants(s, es, id) == RunAt(Run(s, es), id).value.leaseGen
    decreases |es|
  {
    if es != [] {
      ApplyKeeps(s, es[0]);
      FirstStep(s, es[0], id);
      if es[0].Track? && es[0].id == id {
        RunCarries(Apply(s, es[0]), es[1..], id);
      } else {
        Told(Apply(s, es[0]), es[1..], id);
      }
    }
  }

  lemma ToldOf(clock: int, es: seq<Event>, id: string)
    requires id in Run(Initial(clock), es).tracked
    ensures var r := Run(Initial(clock), es).tracked[id];
            TrackedWith(es, id) == Some(r.containerId) && Grants(Initial(clock), es, id) == r.leaseGen
  {
    Told(Initial(clock), es, id);
  }

  // ----- The answers -----

  /** Admission: with no lease, or one that has lapsed, anyone; under a lease that has not,
      exactly the credential with its owner and generation.  The answer is the container
      the run was tracked with. */
  lemma AdmittedIff(clock: int, es: seq<Event>, id: string, cred: Credential, now: int)
    ensures id in Run(Initial(clock), es).tracked ==> TrackedWith(es, id).Some?
    ensures var s := Run(Initial(clock), es);
            Begin(s.tracked, id, cred, now).1 ==
            if id !in s.tracked then Err(NotFound)
            else
              var l := s.tracked[id].lease;
              if l == None || l.value.expiresAt <= now
                 || (cred.owner == l.value.holder && cred.generation == l.value.generation) then
                Ok(TrackedWith(es, id).value)
              else Err(LeaseHeld)
  {
    if id in Run(Initial(clock), es).tracked {
      ToldOf(clock, es, id);
    }
  }

  /** A request is granted exactly when it is sound, nobody else's lease is active and no
      session is open or stranded; and otherwise it is refused for the first of these that
      fails.  The grants are numbered from 1 and last as long as asked for. */
  lemma AcquireAnswers(clock: int, es: seq<Event>, id: string, owner: string, ttl: int, now: int)
    ensures var s := Run(Initial(clock), es);
            Acquire(s.tracked, id, owner, ttl, now).1 ==
            if !SoundRequest(owner, ttl) then Err(BadRequest)
            else if id !in s.tracked then Err(NotFound)
            else
              var l := s.tracked[id].lease;
              if l.Some? && now < l.value.expiresAt && l.value.holder != owner then Err(LeaseHeld)
              else if SessionsOn(s.sessions, id) != {} || Stranded(s, id) > 0 then Err(Busy)
              else Ok(LeaseState(owner, Grants(Initial(clock), es, id) + 1, now + ttl))
  {
    BlankIff(owner);
    if id in Run(Initial(clock), es).tracked {
      ToldOf(clock, es, id);
      IdleIff(clock, es, id);
    }
  }

  lemma IdleIff(clock: int, es: seq<Event>, id: string)
    requires id in Run(Initial(clock), es).tracked
    ensures var s := Run(Initial(clock), es);
            s.tracked[id].execs > 0 <==> SessionsOn(s.sessions, id) != {} || Stranded(s, id) > 0
  {
    CounterIsExact(clock, es, id);
  }

  // ----- How long a lease lasts -----

  /** Nothing that would end or replace the run's lease. */
  predicate Spares(s: Machine, e: Event, id: string) {
    match e
    case AcquireLease(_, _, _, _) => !Granted(s, e, id)
    case RenewLease(j, cred, ttl, wait, between) =>
      j != id || Renew(s.tracked, id, cred, ttl, s.clock + wait, s.clock + wait + between).1.Err?
    case ReleaseLease(j, cred) => j != id || Lease.Release(s.tracked, id, cred).1.Err?
    case Untrack(j) => j != id
    case _ => true
  }

  predicate Undisturbed(s: Machine, es: seq<Event>, id: string)
    decreases |es|
  {
    es == [] || (Spares(s, es[0], id) && Undisturbed(Apply(s, es[0]), es[1..], id))
  }

  /** What a lease does for its holder and to everyone else, up to its expiry and from it
      on. */
  ghost predicate InForce(reg: Registry, id: string, l: LeaseState, containerId: string) {
    var own := Credential(l.holder, l.generation);
    && id in reg
    && (forall other, ttl, now | other != l.holder && SoundRequest(other, ttl) ::
          (Acquire(reg, id, other, ttl, now).1 == Err(LeaseHeld) <==> now < l.expiresAt))
    && (forall now :: Begin(reg, id, own, now).1 == Ok(containerId))
    && (forall cred, now | cred != own ::
          Begin(reg, id, cred, now).1 == if now < l.expiresAt then Err(LeaseHeld) else Ok(containerId))
    && (forall ttl, now, later | 1 <= ttl <= 86_400_000_000_000 ::
          Renew(reg, id, own, ttl, now, later).1 ==
          if now < l.expiresAt then Ok(LeaseState(l.holder, l.generation, later + ttl)) else Err(LeaseSuperseded))
    && Lease.Release(reg, id, own).1 == Ok(())
  }

  lemma StoredIsInForce(reg: Registry, id: string, l: LeaseState)
    requires id in reg && reg[id].lease == Some(l) && !Blank(l.holder)
    ensures InForce(reg, id, l, reg[id].containerId)
  {
    forall other, ttl, now | other != l.holder && SoundRequest(other, ttl)
      ensures Acquire(reg, id, other, ttl, now).1 == Err(LeaseHeld) <==> now < l.expiresAt
    {
      BlankIff(other);
    }
  }

  lemma SparedStep(s: Machine, e: Event, id: string)
    requires NamesOk(s) && id in s.tracked && Spares(s, e, id)
    ensures var s' := Apply(s, e);
            && id in s'.tracked && s'.tracked[id].lease == s.tracked[id].lease
            && s'.tracked[id].containerId == s.tracked[id].containerId
  {
  }

  lemma {:induction false} SparedRun(s: Machine, es: seq<Event>, id: string)
    requires Inv(s) && id in s.tracked && Undisturbed(s, es, id)
    ensures var s' := Run(s, es);
            && id in s'.tracked && s'.tracked[id].lease == s.tracked[id].lease
            && s'.tracked[id].containerId == s.tracked[id].containerId
    decreases |es|
  {
    if es != [] {
      ApplyKeeps(s, es[0]);
      SparedStep(s, es[0], id);
      SparedRun(Apply(s, es[0]), es[1..], id);
    }
  }

  lemma GrantStores(s: Machine, id: string, owner: string, ttl: int, wait: nat)
    requires Acquire(s.tracked, id, owner, ttl, s.clock + wait).1.Ok?
    ensures var s1 := Apply(s, AcquireLease(id, owner, ttl, wait));
            && id in s.tracked && id in s1.tracked && !Blank(owner)
            && s1.tracked[id].lease == Some(LeaseState(owner, s.tracked[id].leaseGen + 1, s.clock + wait + ttl))
            && s1.tracked[id].containerId == s.tracked[id].containerId
  {
  }

  lemma RenewalStores(s: Machine, id: string, cred: Credential, ttl: int, wait: nat, between: nat)
    requires Renew(s.tracked, id, cred, ttl, s.clock + wait, s.clock + wait + between).1.Ok?
    ensures var s1 := Apply(s, RenewLease(id, cred, ttl, wait, between));
            && id in s.tracked && id in s1.tracked && !Blank(cred.owner)
            && s1.tracked[id].lease ==
               Some(LeaseState(cred.owner, cred.generation, s.clock + wait + between + ttl))
            && s1.tracked[id].containerId == s.tracked[id].containerId
  {
  }

  lemma StoredLasts(s: Machine, e: Event, more: seq<Event>, id: string)
    requires Inv(s) && id in Apply(s, e).tracked && Undisturbed(Apply(s, e), more, id)
    requires Apply(s, e).tracked[id].lease.Some? && !Blank(Apply(s, e).tracked[id].lease.value.holder)
    ensures var r := Apply(s, e).tracked[id];
            InForce(Run(Apply(s, e), more).tracked, id, r.lease.value, r.containerId)
  {
    var s1 := Apply(s, e);
    ApplyKeeps(s, e);
    SparedRun(s1, more, id);
    StoredIsInForce(Run(s1, more).tracked, id, s1.tracked[id].lease.value);
  }

  lemma GrantHolds(s: Machine, id: string, owner: string, ttl: int, wait: nat, more: seq<Event>)
    requires Inv(s) && Acquire(s.tracked, id, owner, ttl, s.clock + wait).1.Ok?
    requires Undisturbed(Apply(s, AcquireLease(id, owner, ttl, wait)), more, id)
    ensures var s' := Run(Apply(s, AcquireLease(id, owner, ttl, wait)), more);
            InForce(s'.tracked, id, LeaseState(owner, s.tracked[id].leaseGen + 1, s.clock + wait + ttl),
                    s.tracked[id].containerId)
  {
    GrantStores(s, id, owner, ttl, wait);
    StoredLasts(s, AcquireLease(id, owner, ttl, wait), more, id);
  }

  /** A grant lasts: whatever else happens, until `ttl` after its reading of the clock the
      run is this holder's, who is admitted throughout, and from then on anyone's. */
  lemma GrantLasts(clock: int, es: seq<Event>, id: string, owner: string, ttl: int, wait: nat, more: seq<Event>)
    requires var s := Run(Initial(clock), es); Acquire(s.tracked, id, owner, ttl, s.clock + wait).1.Ok?
    requires Undisturbed(Apply(Run(Initial(clock), es), AcquireLease(id, owner, ttl, wait)), more, id)
    ensures var s := Run(Initial(clock), es);
            var s' := Run(Apply(s, AcquireLease(id, owner, ttl, wait)), more);
            && TrackedWith(es, id).Some?
            && InForce(s'.tracked, id, LeaseState(owner, Grants(Initial(clock), es, id) + 1, s.clock + wait + ttl),
                       TrackedWith(es, id).value)
  {
    Reachable(clock, es);
    ToldOf(clock, es, id);
    GrantHolds(Run(Initial(clock), es), id, owner, ttl, wait, more);
  }

  /** So does a renewal, counted from its second reading of the clock. */
  lemma RenewalLasts(clock: int, es: seq<Event>, id: string, cred: Credential, ttl: int, wait: nat, between: nat,
      more: seq<Event>)
    requires var s := Run(Initial(clock), es);
             Renew(s.tracked, id, cred, ttl, s.clock + wait, s.clock + wait + between).1.Ok?
    requires Undisturbed(Apply(Run(Initial(clock), es), RenewLease(id, cred, ttl, wait, between)), more, id)
    ensures var s := Run(Initial(clock), es);
            var s' := Run(Apply(s, RenewLease(id, cred, ttl, wait, between)), more);
            && TrackedWith(es, id).Some?
            && InForce(s'.tracked, id, LeaseState(cred.owner, cred.generation, s.clock + wait + between + ttl),
                       TrackedWith(es, id).value)
  {
    var s := Run(Initial(clock), es);
    Reachable(clock, es);
    RenewalStores(s, id, cred, ttl, wait, between);
    ToldOf(clock, es, id);
    StoredLasts(s, RenewLease(id, cred, ttl, wait, between), more, id);
  }

  /** A renewal takes the active lease's own credential, keeps its generation, and is
      counted from the second reading. */
  lemma RenewAnswers(clock: int, es: seq<Event>, id: string, cred: Credential, ttl: int, now: int, later: int)
    ensures var s := Run(Initial(clock), es);
            Renew(s.tracked, id, cred, ttl, now, later).1 ==
            if !SoundRequest(cred.owner, ttl) then Err(BadRequest)
            else if id !in s.tracked then Err(NotFound)
            else
              var l := s.tracked[id].lease;
              if l.Some? && now < l.value.expiresAt
                 && cred.owner == l.value.holder && cred.generation == l.value.generation then
                Ok(LeaseState(cred.owner, cred.generation, later + ttl))
              else Err(LeaseSuperseded)
  {
    BlankIff(cred.owner);
  }

  /** Giving a lease back takes exactly the stored credential, lapsed or not, and leaves the
      run to anyone. */
  lemma ReleaseAnswers(clock: int, es: seq<Event>, id: string, cred: Credential, any: Credential, now: int)
    requires id in Run(Initial(clock), es).tracked && (exists c | c in cred.owner :: !IsSpace(c))
    ensures var s := Run(Initial(clock), es);
            var l := s.tracked[id].lease;
            var released := Lease.Release(s.tracked, id, cred);
            && TrackedWith(es, id).Some?
            && (released.1 == Ok(()) <==>
                  l.Some? && cred.owner == l.value.holder && cred.generation == l.value.generation)
            && (released.1 == Err(LeaseSuperseded) <==> released.1.Err?)
            && (released.1.Ok? ==> Begin(released.0, id, any, now).1 == Ok(TrackedWith(es, id).value))
  {
    BlankIff(cred.owner);
    ToldOf(clock, es, id);
  }
}
