/** Writable leases: what each section under the manager's lock does to the registry. */
module Lease {
  import opened Prelude
  import opened Text

  /** Nanoseconds; MaxTTL is 24 hours. */
  const MAX_TTL: int := 24 * 3600 * 1_000_000_000

  datatype LeaseState = LeaseState(holder: string, generation: nat, expiresAt: int)

  datatype Credential = Credential(owner: string, generation: nat)

  /** A run as the registry sees it. */
  datatype RunState = RunState(containerId: string, lease: Option<LeaseState>, leaseGen: nat, execs: nat)

  type Registry = map<string, RunState>

  datatype Refusal = BadRequest | NotFound | LeaseHeld | LeaseSuperseded | Busy

  predicate Blank(s: string) {
    TrimSpace(s) == ""
  }

  /** The lease unless it has lapsed. */
  function ActiveLease(r: RunState, now: int): Option<LeaseState> {
    if r.lease.Some? && r.lease.value.expiresAt > now then r.lease else None
  }

  /** The fence lets this credential through. */
  predicate PassesFence(r: RunState, cred: Credential, now: int) {
    var l := ActiveLease(r, now);
    l.Some? ==> cred == Credential(l.value.holder, l.value.generation)
  }

  predicate GoodRequest(owner: string, ttl: int) {
    !Blank(owner) && 0 < ttl <= MAX_TTL
  }

  function Acquire(reg: Registry, id: string, owner: string, ttl: int, now: int): (Registry,
      Result<LeaseState, Refusal>) {
    if !GoodRequest(owner, ttl) then (reg, Err(BadRequest))
    else if id !in reg then (reg, Err(NotFound))
    else
      var r := reg[id];
      var l := ActiveLease(r, now);
      if l.Some? && l.value.holder != owner then (reg, Err(LeaseHeld))
      else if r.execs > 0 then (reg, Err(Busy))
      else
        var granted := LeaseState(owner, r.leaseGen + 1, now + ttl);
        (reg[id := r.(leaseGen := r.leaseGen + 1, lease := Some(granted))], Ok(granted))
  }

  /** The clock is read twice: for the fence, and for the new expiry. */
  function Renew(reg: Registry, id: string, cred: Credential, ttl: int, now: int, later: int): (Registry,
      Result<LeaseState, Refusal>) {
    if !GoodRequest(cred.owner, ttl) then (reg, Err(BadRequest))
    else if id !in reg then (reg, Err(NotFound))
    else
      var r := reg[id];
      var l := ActiveLease(r, now);
      if l.None? || cred != Credential(l.value.holder, l.value.generation) then (reg, Err(LeaseSuperseded))
      else
        var renewed := LeaseState(cred.owner, cred.generation, later + ttl);
        (reg[id := r.(lease := Some(renewed))], Ok(renewed))
  }

  function Release(reg: Registry, id: string, cred: Credential): (Registry, Result<(), Refusal>) {
    if Blank(cred.owner) then (reg, Err(BadRequest))
    else if id !in reg then (reg, Err(NotFound))
    else
      var r := reg[id];
      if r.lease.None? || cred != Credential(r.lease.value.holder, r.lease.value.generation) then
          (reg, Err(LeaseSuperseded))
      else (reg[id := r.(lease := None)], Ok(()))
  }

  /** Admission of an exec or a write: the fence and the in-flight mark, in one section. */
  function Begin(reg: Registry, id: string, cred: Credential, now: int): (Registry, Result<string, Refusal>) {
    if id !in reg then (reg, Err(NotFound))
    else if !PassesFence(reg[id], cred, now) then (reg, Err(LeaseHeld))
    else (reg[id := reg[id].(execs := reg[id].execs + 1)], Ok(reg[id].containerId))
  }

  function Finish(reg: Registry, id: string): Registry {
    if id in reg && reg[id].execs > 0 then reg[id := reg[id].(execs := reg[id].execs - 1)] else reg
  }
}
