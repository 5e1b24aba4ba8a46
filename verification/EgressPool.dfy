/** The pool of proxies: one shared, and one private listener per run with entries of its
    own. */
module EgressPool {
  import opened Prelude
  import opened Text
  import opened Allowlist
  import AllowlistTheorems

  /** A bound listener and the list its proxy enforces. */
  datatype Server = Server(port: nat, allow: seq<string>)

  /** The list of a private listener: the base list and the run's entries, as parsed. */
  function ListFor(base: seq<string>, extra: seq<string>): seq<string> {
    base + Kept(Fields(Join(extra, ',')))
  }

  /** Nothing is bound but what the pool knows, no two listeners share a port, and no two
      runs a listener. */
  ghost predicate Bindings(perRun: map<string, Server>, bound: set<Server>, shared: set<Server>) {
    && bound == perRun.Values + shared
    && (forall s, t | s in bound && t in bound && s.port == t.port :: s == t)
    && (forall a, b | a in perRun && b in perRun && perRun[a] == perRun[b] :: a == b)
    && (forall a | a in perRun :: perRun[a] !in shared)
  }

  ghost predicate Carried(base: seq<string>, perRun: map<string, Server>, asked: map<string, seq<string>>) {
    asked.Keys == perRun.Keys && forall a | a in perRun :: perRun[a].allow == ListFor(base, asked[a])
  }

  lemma StillCarried(base: seq<string>, perRun: map<string, Server>, asked: map<string, seq<string>>, id: string,
      s: Server, extra: seq<string>)
    requires Carried(base, perRun, asked)
    ensures s.allow == ListFor(base, extra) ==> Carried(base, perRun[id := s], asked[id := extra])
    ensures Carried(base, perRun - {id}, asked - {id})
  {
  }

  class Pool {
    const base: seq<string>
    var shared: Option<Server>
    var perRun: map<string, Server>
    /** Every listener that is bound right now. */
    var bound: set<Server>
    /** The entries each registered run opened its listener with. */
    ghost var asked: map<string, seq<string>>

    constructor (base: seq<string>)
      ensures Valid() && this.base == base && shared == None && perRun == map[]
    {
      this.base := base;
      shared, perRun, bound, asked := None, map[], {}, map[];
    }

    function Shared(): set<Server>
      reads this
    {
      if shared.Some? then {shared.value} else {}
    }

    /** The bound listeners are the shared one and one for each registered run: none is
        orphaned, none serves two runs, and each carries its own run's entries. */
    ghost predicate Valid()
      reads this
    {
      && Bindings(perRun, bound, Shared())
      && (shared.Some? ==> shared.value.allow == base)
      && Carried(base, perRun, asked)
    }

    method Start(port: Option<nat>) returns (r: Result<nat, ()>)
      requires Valid() && shared.None? && (port.Some? ==> forall s | s in bound :: s.port != port.value)
      modifies this
      ensures Valid() && perRun == old(perRun) && asked == old(asked)
      ensures r == (if port.Some? then Ok(port.value) else Err(()))
      ensures shared == if port.Some? then Some(Server(port.value, base)) else None
    {
      if port.None? {
        return Err(());
      }
      var server := Server(port.value, base);
      shared, bound := Some(server), bound + {server};
      return Ok(port.value);
    }

    /** The proxy for a run; the kernel picks a free port, or binding fails.  Without
        entries of its own the run gets the shared proxy, and nothing is opened. */
    method OpenFor(runID: string, extra: seq<string>, port: Option<nat>) returns (r: Result<Option<nat>, ()>)
      requires Valid() && (port.Some? ==> forall s | s in bound :: s.port != port.value)
      modifies this
      ensures Valid() && shared == old(shared)
      ensures asked == if extra != [] && port.Some? then old(asked)[runID := extra] else old(asked)
      ensures extra == [] ==> perRun == old(perRun) && r == Ok(if shared.Some? then Some(shared.value.port) else None)
      ensures extra != [] && port.None? ==> perRun == old(perRun) && r == Err(())
      ensures extra != [] && port.Some? ==>
              r == Ok(port) && perRun == old(perRun)[runID := Server(port.value, ListFor(base, extra))]
    {
      if extra == [] {
        return Ok(if shared.Some? then Some(shared.value.port) else None);
      }
      var parsed := ParseAllowlist(Join(extra, ','));
      var allow := base + parsed;
      if port.None? {
        return Err(());
      }
      Register(runID, Server(port.value, allow), extra);
      return Ok(port);
    }

    /** The section under the lock: an earlier listener of the run is closed first. */
    method Register(runID: string, server: Server, ghost extra: seq<string>)
      requires Valid() && server.allow == ListFor(base, extra) && forall s | s in bound :: s.port != server.port
      modifies this`perRun, this`bound, this`asked
      ensures Valid() && perRun == old(perRun)[runID := server] && asked == old(asked)[runID := extra]
    {
      if runID in perRun {
        bound := bound - {perRun[runID]};
      }
      bound := bound + {server};
      perRun, asked := perRun[runID := server], asked[runID := extra];
      StillCarried(base, old(perRun), old(asked), runID, server, extra);
      Opened(old(perRun), runID, server, old(bound), Shared());
    }

    /** Idempotent: a run without a private listener has nothing to close. */
    method Close(runID: string)
      requires Valid()
      modifies this`perRun, this`bound, this`asked
      ensures Valid() && perRun == old(perRun) - {runID} && asked == old(asked) - {runID}
      ensures bound == if runID in old(perRun) then old(bound) - {old(perRun)[runID]} else old(bound)
    {
      if runID in perRun {
        bound := bound - {perRun[runID]};
      }
      perRun, asked := perRun - {runID}, asked - {runID};
      StillCarried(base, old(perRun), old(asked), runID, Server(0, []), []);
      Closed(old(perRun), runID, old(bound), Shared());
    }

    method CloseAll()
      requires Valid()
      modifies this`perRun, this`bound, this`asked
      ensures Valid() && perRun == map[]
    {
      var ids := perRun.Keys;
      while ids != {}
        invariant Valid() && forall a | a in perRun :: a in ids
        decreases ids
      {
        var id :| id in ids;
        Close(id);
        ids := ids - {id};
      }
      assert forall a :: a !in perRun;
    }

    /** Every private listener goes, then the shared one. */
    method Shutdown()
      requires Valid()
      modifies this`perRun, this`bound, this`asked
      ensures perRun == map[] && bound == {}
    {
      CloseAll();
      assert perRun.Values == {};
      if shared.Some? {
        bound := bound - {shared.value};
      }
    }
  }

  lemma Opened(before: map<string, Server>, id: string, s: Server, bound: set<Server>, shared: set<Server>)
    requires Bindings(before, bound, shared) && forall t | t in bound :: t.port != s.port
    ensures Bindings(before[id := s], (if id in before then bound - {before[id]} else bound) + {s}, shared)
  {
    var after, bound' := before[id := s], (if id in before then bound - {before[id]} else bound) + {s};
    OpenedValues(before, id, s, bound, shared);
    forall a, b | a in after && b in after && after[a] == after[b] ensures a == b {
      assert a != id ==> before[a] in bound;
      assert b != id ==> before[b] in bound;
    }
  }

  lemma OpenedValues(before: map<string, Server>, id: string, s: Server, bound: set<Server>, shared: set<Server>)
    requires Bindings(before, bound, shared) && s !in bound
    ensures (if id in before then bound - {before[id]} else bound) + {s} == before[id := s].Values + shared
  {
    var after, bound' := before[id := s], (if id in before then bound - {before[id]} else bound) + {s};
    forall x | x in bound' ensures x in after.Values + shared {
      if x != s && x !in shared {
        var a :| a in before && before[a] == x;
        assert after[a] == x;
      } else if x == s {
        assert after[id] == s;
      }
    }
  }

  lemma Closed(before: map<string, Server>, id: string, bound: set<Server>, shared: set<Server>)
    requires Bindings(before, bound, shared)
    ensures Bindings(before - {id}, if id in before then bound - {before[id]} else bound, shared)
  {
    var bound' := if id in before then bound - {before[id]} else bound;
    forall x | x in bound' ensures x in (before - {id}).Values + shared {
      if x !in shared {
        var a :| a in before && before[a] == x;
        assert (before - {id})[a] == x;
      }
    }
  }

  /** Isolation: whatever else the pool has been asked for, the listener a run has was
      opened with the validated entries of a request of its own, and lets through exactly
      what the base list does or one of those entries, alone, does. */
  lemma PrivateProxyPermits(pool: Pool, runID: string, isIP: string -> bool, entries: seq<string>, hostport: string)
    requires pool.Valid() && runID in pool.perRun && |pool.asked[runID]| == |entries|
    requires forall k | 0 <= k < |entries| :: ValidateEntry(isIP, entries[k]) == Ok(pool.asked[runID][k])
    ensures pool.perRun[runID] in pool.bound
    ensures forall other | other in pool.perRun && other != runID :: pool.perRun[other] != pool.perRun[runID]
    ensures Permitted(pool.perRun[runID].allow, hostport) <==>
              || Permitted(pool.base, hostport)
              || exists raw :: raw in entries && Permitted([ValidateEntry(isIP, raw).value], hostport)
  {
    AllowlistTheorems.EndToEnd(isIP, pool.base, entries, pool.asked[runID], hostport);
  }
}
