/** The manager's registry, changed in place.  Each method is one section under the
    manager's lock, and does to the registry exactly what the function of the same event
    in the lease protocol says. */
module RunManager {
  import opened Prelude
  import opened Lease

  class Run {
    const id: string
    const containerId: string
    const expiresAt: int
    var lease: Option<LeaseState>
    var leaseGen: nat
    var execs: nat

    constructor (id: string, containerId: string, expiresAt: int)
      ensures this.id == id && this.containerId == containerId && this.expiresAt == expiresAt
      ensures State() == RunState(containerId, None, 0, 0)
    {
      this.id, this.containerId, this.expiresAt := id, containerId, expiresAt;
      lease, leaseGen, execs := None, 0, 0;
    }

    function State(): RunState
      reads this
    {
      RunState(containerId, lease, leaseGen, execs)
    }
  }

  class Manager {
    var runs: map<string, Run>

    /** Each run is filed under its own id, so no object is filed twice. */
    ghost predicate Valid()
      reads this
    {
      forall id | id in runs :: runs[id].id == id
    }

    ghost function View(): Registry
      reads this, runs.Values
    {
      map id | id in runs :: runs[id].State()
    }

    constructor ()
      ensures Valid() && View() == map[]
    {
      runs := map[];
    }

    method AcquireLease(id: string, owner: string, ttl: int, now: int) returns (r: Result<LeaseState, Refusal>)
      requires Valid()
      modifies runs.Values
      ensures View() == Acquire(old(View()), id, owner, ttl, now).0 && r == Acquire(old(View()), id, owner, ttl, now).1
    {
      if Blank(owner) || ttl <= 0 || ttl > MAX_TTL {
        return Err(BadRequest);
      }
      if id !in runs {
        return Err(NotFound);
      }
      var current := runs[id];
      var active := ActiveLease(current.State(), now);
      if active.Some? && active.value.holder != owner {
        return Err(LeaseHeld);
      }
      if current.execs > 0 {
        return Err(Refusal.Busy);
      }
      current.leaseGen := current.leaseGen + 1;
      current.lease := Some(LeaseState(owner, current.leaseGen, now + ttl));
      return Ok(current.lease.value);
    }

    method RenewLease(id: string, owner: string, generation: nat, ttl: int, now: int, later: int)
        returns (r: Result<LeaseState, Refusal>)
      requires Valid()
      modifies runs.Values
      ensures View() == Renew(old(View()), id, Credential(owner, generation), ttl, now, later).0
              && r == Renew(old(View()), id, Credential(owner, generation), ttl, now, later).1
    {
      if Blank(owner) || ttl <= 0 || ttl > MAX_TTL {
        return Err(BadRequest);
      }
      if id !in runs {
        return Err(NotFound);
      }
      var current := runs[id];
      var active := ActiveLease(current.State(), now);
      if active.None? || active.value.holder != owner || active.value.generation != generation {
        return Err(LeaseSuperseded);
      }
      current.lease := Some(LeaseState(owner, generation, later + ttl));
      return Ok(current.lease.value);
    }

    method ReleaseLease(id: string, owner: string, generation: nat) returns (r: Result<(), Refusal>)
      requires Valid()
      modifies runs.Values
      ensures View() == Release(old(View()), id, Credential(owner, generation)).0
              && r == Release(old(View()), id, Credential(owner, generation)).1
    {
      if Blank(owner) {
        return Err(BadRequest);
      }
      if id !in runs {
        return Err(NotFound);
      }
      var current := runs[id];
      if current.lease.None? || current.lease.value.holder != owner || current.lease.value.generation != generation {
        return Err(LeaseSuperseded);
      }
      current.lease := None;
      return Ok(());
    }

    /** BeginExec, and the admission half of WriteFile.  Returns the container to run in. */
    method BeginExec(id: string, cred: Credential, now: int) returns (r: Result<string, Refusal>)
      requires Valid()
      modifies runs.Values
      ensures View() == Begin(old(View()), id, cred, now).0 && r == Begin(old(View()), id, cred, now).1
    {
      if id !in runs {
        return Err(NotFound);
      }
      var current := runs[id];
      if !PassesFence(current.State(), cred, now) {
        return Err(LeaseHeld);
      }
      current.execs := current.execs + 1;
      return Ok(current.containerId);
    }

    /** finishExec: the end of Exec, Abandon or WriteFile. */
    method FinishExec(id: string)
      requires Valid()
      modifies runs.Values
      ensures View() == Finish(old(View()), id)
    {
      if id in runs && runs[id].execs > 0 {
        runs[id].execs := runs[id].execs - 1;
      }
    }

    /** The last section of Create, and the section of a Destroy whose removal failed. */
    method Insert(run: Run)
      requires Valid()
      modifies this
      ensures Valid() && runs == old(runs)[run.id := run]
      ensures View() == old(View())[run.id := run.State()]
    {
      runs := runs[run.id := run];
    }

    /** The first section of Destroy: from here the caller alone holds the run. */
    method TakeOut(id: string) returns (run: Option<Run>)
      requires Valid()
      modifies this
      ensures Valid() && View() == old(View()) - {id}
      ensures run.Some? <==> id in old(runs)
      ensures run.Some? ==>
              run.value == old(runs)[id] && run.value !in runs.Values && run.value.State() == old(View())[id]
    {
      run := if id in runs then Some(runs[id]) else None;
      runs := runs - {id};
    }

    /** Reap's section: every expired run, each once, leaves the registry, in whatever
        order the map is walked. */
    method TakeExpired(now: int) returns (expired: seq<Run>)
      requires Valid()
      modifies this
      ensures Valid()
      ensures runs == map id | id in old(runs) && old(runs)[id].expiresAt > now :: old(runs)[id]
      ensures forall run :: run in expired <==> run in old(runs).Values && run.expiresAt <= now
      ensures forall i, j | 0 <= i < j < |expired| :: expired[i] != expired[j]
    {
      var todo := runs.Keys;
      expired := [];
      while todo != {}
        invariant todo <= runs.Keys <= old(runs).Keys
        invariant forall id | id in runs :: runs[id] == old(runs)[id]
        invariant forall id | id in old(runs) && id !in todo :: id in runs <==> old(runs)[id].expiresAt > now
        invariant forall run :: run in expired <==> run in old(runs).Values && run.id !in runs
        invariant forall i, j | 0 <= i < j < |expired| :: expired[i] != expired[j]
        decreases |todo|
      {
        var id :| id in todo;
        todo := todo - {id};
        var run := runs[id];
        if run.expiresAt <= now {
          expired := expired + [run];
          runs := runs - {id};
        }
      }
    }
  }
}
