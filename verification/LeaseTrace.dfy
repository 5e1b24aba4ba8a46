/** The lease protocol over whole traces: any number of callers, sessions that outlive
    their calls, and destroys that take a run out of the registry and may put it back. */
module LeaseTrace {
  import opened Prelude
  import opened Lease

  /** An admitted exec or write that has not finished, with the credential it came with. */
  datatype Session = Session(run: string, cred: Credential)

  /** `held` are the runs a Destroy or Reap has taken out of the registry; `stranded`
      counts the sessions that ended meanwhile; `clock` is the last reading given out. */
  datatype Machine = Machine(
    tracked: Registry,
    held: Registry,
    sessions: map<nat, Session>,
    next: nat,
    stranded: map<string, nat>,
    clock: int,
    used: set<string>)

  /** Clock readings come as advances, so they never decrease. */
  datatype Event =
    | Track(id: string, containerId: string)
    | AcquireLease(id: string, owner: string, ttl: int, wait: nat)
    | RenewLease(id: string, cred: Credential, ttl: int, wait: nat, between: nat)
    | ReleaseLease(id: string, cred: Credential)
    | BeginSession(id: string, cred: Credential, wait: nat)
    | EndSession(sid: nat)
    | Untrack(id: string)
    | Retrack(id: string)
    | Forget(id: string)

  function Stranded(s: Machine, id: string): nat {
    if id in s.stranded then s.stranded[id] else 0
  }

  function Apply(s: Machine, e: Event): Machine {
    match e
    case Track(id, containerId) =>
      if id in s.used then s
      else s.(tracked := s.tracked[id := RunState(containerId, None, 0, 0)], used := s.used + {id})
    case AcquireLease(id, owner, ttl, wait) =>
      s.(clock := s.clock + wait, tracked := Acquire(s.tracked, id, owner, ttl, s.clock + wait).0)
    case RenewLease(id, cred, ttl, wait, between) =>
      s.(clock := s.clock + wait + between,
         tracked := Renew(s.tracked, id, cred, ttl, s.clock + wait, s.clock + wait + between).0)
    case ReleaseLease(id, cred) =>
      s.(tracked := Release(s.tracked, id, cred).0)
    case BeginSession(id, cred, wait) =>
      var now := s.clock + wait;
      var b := Begin(s.tracked, id, cred, now);
      if b.1.Err? then s.(clock := now)
      else s.(clock := now, tracked := b.0, sessions := s.sessions[s.next := Session(id, cred)], next := s.next + 1)
    case EndSession(sid) =>
      if sid !in s.sessions then s
      else
        var id := s.sessions[sid].run;
        s.(sessions := s.sessions - {sid},
           tracked := Finish(s.tracked, id),
           stranded := if id in s.held then s.stranded[id := Stranded(s, id) + 1] else s.stranded)
    case Untrack(id) =>
      if id !in s.tracked then s else s.(tracked := s.tracked - {id}, held := s.held[id := s.tracked[id]])
    case Retrack(id) =>
      if id !in s.held then s else s.(held := s.held - {id}, tracked := s.tracked[id := s.held[id]])
    case Forget(id) =>
      s.(held := s.held - {id})
  }

  function Run(s: Machine, es: seq<Event>): Machine
    decreases |es|
  {
    if es == [] then s else Run(Apply(s, es[0]), es[1..])
  }

  function Initial(clock: int): Machine {
    Machine(map[], map[], map[], 0, map[], clock, {})
  }

  // ----- The invariant -----

  function SessionsOn(sessions: map<nat, Session>, id: string): set<nat> {
    set sid | sid in sessions && sessions[sid].run == id
  }

  /** Open sessions on a run under a live lease carry exactly that lease. */
  ghost predicate Exclusive(r: RunState, sessions: map<nat, Session>, id: string, clock: int) {
    r.lease.Some? && r.lease.value.expiresAt > clock ==>
      forall sid | sid in sessions && sessions[sid].run == id ::
        sessions[sid].cred == Credential(r.lease.value.holder, r.lease.value.generation)
  }

  /** A stored lease carries the counter's current value. */
  predicate Current(r: RunState) {
    r.lease.Some? ==> r.lease.value.generation == r.leaseGen
  }

  ghost predicate RunOk(s: Machine, id: string, r: RunState) {
    && Current(r)
    && r.execs == |SessionsOn(s.sessions, id)| + Stranded(s, id)
    && Exclusive(r, s.sessions, id, s.clock)
  }

  ghost predicate NamesOk(s: Machine) {
    && s.tracked.Keys !! s.held.Keys && s.tracked.Keys + s.held.Keys <= s.used && s.stranded.Keys <= s.used
    && (forall sid | sid in s.sessions :: sid < s.next && s.sessions[sid].run in s.used)
  }

  ghost predicate Inv(s: Machine) {
    && NamesOk(s)
    && (forall id | id in s.tracked :: RunOk(s, id, s.tracked[id]))
    && (forall id | id in s.held :: RunOk(s, id, s.held[id]))
  }

  lemma SessionsAdd(sessions: map<nat, Session>, sid: nat, x: Session, id: string)
    requires sid !in sessions
    ensures |SessionsOn(sessions[sid := x], id)| == |SessionsOn(sessions, id)| + if x.run == id then 1 else 0
  {
    var before := SessionsOn(sessions, id);
    if x.run == id {
      assert SessionsOn(sessions[sid := x], id) == before + {sid};
    } else {
      assert SessionsOn(sessions[sid := x], id) == before;
    }
  }

  lemma SessionsRemove(sessions: map<nat, Session>, sid: nat, id: string)
    requires sid in sessions
    ensures |SessionsOn(sessions, id)| == |SessionsOn(sessions - {sid}, id)| + if sessions[sid].run == id then 1 else 0
  {
    assert sessions == (sessions - {sid})[sid := sessions[sid]];
    SessionsAdd(sessions - {sid}, sid, sessions[sid], id);
  }

  /** A run nobody touched stays right when time passes. */
  lemma LaterOk(s: Machine, s': Machine, id: string, r: RunState)
    requires RunOk(s, id, r) && s'.sessions == s.sessions && s'.stranded == s.stranded && s'.clock >= s.clock
    ensures RunOk(s', id, r)
  {
  }

  lemma AllLater(s: Machine, s': Machine, id: string)
    requires Inv(s) && s'.sessions == s.sessions && s'.stranded == s.stranded && s'.clock >= s.clock
             && s'.next == s.next && s'.used == s.used
    requires s'.held == s.held && s'.tracked.Keys == s.tracked.Keys && s'.tracked - {id} == s.tracked - {id}
    requires id in s'.tracked ==> RunOk(s', id, s'.tracked[id])
    ensures Inv(s')
  {
    forall j | j in s'.tracked ensures RunOk(s', j, s'.tracked[j]) {
      if j != id {
        assert (s'.tracked - {id})[j] == (s.tracked - {id})[j];
        LaterOk(s, s', j, s.tracked[j]);
      }
    }
    forall j | j in s'.held ensures RunOk(s', j, s'.held[j]) {
      LaterOk(s, s', j, s.held[j]);
    }
  }

  lemma TrackKeeps(s: Machine, id: string, containerId: string)
    requires Inv(s)
    ensures Inv(Apply(s, Track(id, containerId)))
  {
    if id !in s.used {
      var s' := Apply(s, Track(id, containerId));
      assert SessionsOn(s.sessions, id) == {};
      forall j | j in s'.tracked ensures RunOk(s', j, s'.tracked[j]) {
        if j != id {
          LaterOk(s, s', j, s.tracked[j]);
        }
      }
    }
  }

  lemma AcquireKeeps(s: Machine, id: string, owner: string, ttl: int, wait: nat)
    requires Inv(s)
    ensures Inv(Apply(s, AcquireLease(id, owner, ttl, wait)))
  {
    var s' := Apply(s, AcquireLease(id, owner, ttl, wait));
    var a := Acquire(s.tracked, id, owner, ttl, s.clock + wait);
    if id in s.tracked {
      assert RunOk(s, id, s.tracked[id]);
      if a.1.Ok? {
        NoneOpen(s, id);
      }
    }
    assert s'.tracked - {id} == s.tracked - {id};
    AllLater(s, s', id);
  }

  /** An idle counter means no session is open. */
  lemma NoneOpen(s: Machine, id: string)
    requires id in s.tracked && RunOk(s, id, s.tracked[id]) && s.tracked[id].execs == 0
    ensures forall sid | sid in s.sessions :: s.sessions[sid].run != id
  {
    assert |SessionsOn(s.sessions, id)| == 0;
    forall sid | sid in s.sessions ensures s.sessions[sid].run != id {
      assert sid !in SessionsOn(s.sessions, id);
    }
  }

  lemma RenewKeeps(s: Machine, id: string, cred: Credential, ttl: int, wait: nat, between: nat)
    requires Inv(s)
    ensures Inv(Apply(s, RenewLease(id, cred, ttl, wait, between)))
  {
    var s' := Apply(s, RenewLease(id, cred, ttl, wait, between));
    if id in s.tracked {
      assert RunOk(s, id, s.tracked[id]);
    }
    assert s'.tracked - {id} == s.tracked - {id};
    AllLater(s, s', id);
  }

  lemma ReleaseKeeps(s: Machine, id: string, cred: Credential)
    requires Inv(s)
    ensures Inv(Apply(s, ReleaseLease(id, cred)))
  {
    var s' := Apply(s, ReleaseLease(id, cred));
    if id in s.tracked {
      assert RunOk(s, id, s.tracked[id]);
    }
    assert s'.tracked - {id} == s.tracked - {id};
    AllLater(s, s', id);
  }

  /** What an admission means for one run: nothing unless it is the run admitted to. */
  lemma BeginOk(s: Machine, s': Machine, x: Session, now: int, id: string, r: RunState, r': RunState)
    requires RunOk(s, id, r) && s.next !in s.sessions && now >= s.clock
    requires s'.clock == now && s'.sessions == s.sessions[s.next := x] && s'.stranded == s.stranded
    requires if x.run == id then PassesFence(r, x.cred, now) && r' == r.(execs := r.execs + 1) else r' == r
    ensures RunOk(s', id, r')
  {
    SessionsAdd(s.sessions, s.next, x, id);
  }

  lemma BeginKeeps(s: Machine, id: string, cred: Credential, wait: nat)
    requires Inv(s)
    ensures Inv(Apply(s, BeginSession(id, cred, wait)))
  {
    var now, x := s.clock + wait, Session(id, cred);
    var s' := Apply(s, BeginSession(id, cred, wait));
    if Begin(s.tracked, id, cred, now).1.Err? {
      AllLater(s, s', id);
    } else {
      forall j | j in s'.tracked ensures RunOk(s', j, s'.tracked[j]) {
        BeginOk(s, s', x, now, j, s.tracked[j], s'.tracked[j]);
      }
      forall j | j in s'.held ensures RunOk(s', j, s'.held[j]) {
        BeginOk(s, s', x, now, j, s.held[j], s'.held[j]);
      }
    }
  }

  lemma EndKeeps(s: Machine, sid: nat)
    requires Inv(s)
    ensures Inv(Apply(s, EndSession(sid)))
  {
    if sid in s.sessions {
      var s' := Apply(s, EndSession(sid));
      var id := s.sessions[sid].run;
      forall j | j in s'.tracked ensures RunOk(s', j, s'.tracked[j]) {
        SessionsRemove(s.sessions, sid, j);
        assert RunOk(s, j, s.tracked[j]);
      }
      forall j | j in s'.held ensures RunOk(s', j, s'.held[j]) {
        SessionsRemove(s.sessions, sid, j);
        assert RunOk(s, j, s.held[j]);
      }
    }
  }

  /** Moving runs between the registry and whoever holds them changes no run. */
  lemma MoveOk(s: Machine, s': Machine)
    requires Inv(s) && s'.sessions == s.sessions && s'.stranded == s.stranded && s'.clock == s.clock && NamesOk(s')
    requires forall j | j in s'.tracked ::
             (j in s.tracked && s'.tracked[j] == s.tracked[j]) || (j in s.held && s'.tracked[j] == s.held[j])
    requires forall j | j in s'.held ::
             (j in s.tracked && s'.held[j] == s.tracked[j]) || (j in s.held && s'.held[j] == s.held[j])
    ensures Inv(s')
  {
    forall j | j in s'.tracked ensures RunOk(s', j, s'.tracked[j]) {
      LaterOk(s, s', j, s'.tracked[j]);
    }
    forall j | j in s'.held ensures RunOk(s', j, s'.held[j]) {
      LaterOk(s, s', j, s'.held[j]);
    }
  }

  lemma MoveKeeps(s: Machine, e: Event)
    requires Inv(s) && (e.Untrack? || e.Retrack? || e.Forget?)
    ensures Inv(Apply(s, e))
  {
    MoveOk(s, Apply(s, e));
  }

  lemma ApplyKeeps(s: Machine, e: Event)
    requires Inv(s)
    ensures Inv(Apply(s, e))
  {
    match e
    case Track(id, c) => TrackKeeps(s, id, c);
    case AcquireLease(id, owner, ttl, wait) => AcquireKeeps(s, id, owner, ttl, wait);
    case RenewLease(id, cred, ttl, wait, between) => RenewKeeps(s, id, cred, ttl, wait, between);
    case ReleaseLease(id, cred) => ReleaseKeeps(s, id, cred);
    case BeginSession(id, cred, wait) => BeginKeeps(s, id, cred, wait);
    case EndSession(sid) => EndKeeps(s, sid);
    case _ => MoveKeeps(s, e);
  }

  lemma {:induction false} RunKeeps(s: Machine, es: seq<Event>)
    requires Inv(s)
    ensures Inv(Run(s, es))
    decreases |es|
  {
    if es != [] {
      ApplyKeeps(s, es[0]);
      RunKeeps(Apply(s, es[0]), es[1..]);
    }
  }
}
