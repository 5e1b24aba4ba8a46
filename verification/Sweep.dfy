/** The reaper's eviction pass over the warm templates: least recently used first, until
    the cache fits its cap.  Sizes, clocks and busy directories are one snapshot. */
module Sweep {
  import opened Prelude
  import opened Sorting

  /** A template directory as the scan finds it: its size, the stamp of its last use, and
      its manifest's creation time. */
  datatype Found = Found(dir: string, size: nat, stamp: Option<int>, created: Option<int>)

  datatype Template = Template(dir: string, lastUsed: int, size: nat)

  /** The zero time, in Unix seconds. */
  const NEVER: int := -62_135_596_800

  function LastUsed(f: Found): int {
    if f.stamp.Some? && f.stamp.value != NEVER then f.stamp.value else if f.created.Some? then f.created.value
        else NEVER
  }

  predicate DirsDistinct(ts: seq<Template>) {
    forall i, j | 0 <= i < j < |ts| :: ts[i].dir != ts[j].dir
  }

  /** A mark stands on something below the directory. */
  predicate BusyUnder(inUse: set<string>, dir: string) {
    exists p | p in inUse :: dir + "/" <= p
  }

  /** Bytes of the templates still there. */
  function Left(ts: seq<Template>, gone: set<string>): nat {
    if ts == [] then 0 else (if ts[0].dir in gone then 0 else ts[0].size) + Left(ts[1..], gone)
  }

  function Names(removed: seq<string>): set<string> {
    set d | d in removed
  }

  const Older := (a: Template, b: Template) => a.lastUsed <= b.lastUsed

  lemma {:induction false} LeftLess(ts: seq<Template>, gone: set<string>, i: nat)
    requires i < |ts| && DirsDistinct(ts) && ts[i].dir !in gone
    ensures Left(ts, gone + {ts[i].dir}) == Left(ts, gone) - ts[i].size
  {
    if i == 0 {
      LeftSame(ts[1..], gone, ts[0].dir);
    } else {
      LeftLess(ts[1..], gone, i - 1);
    }
  }

  lemma {:induction false} LeftSame(ts: seq<Template>, gone: set<string>, dir: string)
    requires forall t | t in ts :: t.dir != dir
    ensures Left(ts, gone + {dir}) == Left(ts, gone)
  {
    if ts != [] {
      LeftSame(ts[1..], gone, dir);
    }
  }

  lemma {:induction false} LeftInsert(t: Template, ts: seq<Template>, gone: set<string>)
    ensures Left(Insert(Older, t, ts), gone) == Left([t] + ts, gone)
  {
    assert ([t] + ts)[1..] == ts;
    if ts != [] && !Older(t, ts[0]) {
      LeftInsert(t, ts[1..], gone);
      assert ([t] + ts[1..])[1..] == ts[1..];
    }
  }

  lemma {:induction false} LeftSorted(ts: seq<Template>, gone: set<string>)
    ensures Left(Sort(Older, ts), gone) == Left(ts, gone)
  {
    if ts != [] {
      LeftSorted(ts[1..], gone);
      LeftInsert(ts[0], Sort(Older, ts[1..]), gone);
      var rest := Sort(Older, ts[1..]);
      assert ([ts[0]] + rest)[1..] == rest;
    }
  }

  /** What a pass over `ts` may look like. */
  ghost predicate Outcome(ts: seq<Template>, runs: nat, cap: int, inUse: set<string>, stuck: set<string>,
      removed: seq<string>) {
    && (forall i, j | 0 <= i < j < |removed| :: removed[i] != removed[j])
    && (forall d | d in removed :: !BusyUnder(inUse, d) && d !in stuck && exists t :: t in ts && t.dir == d)
    && StaysOver(ts, runs, cap, removed)
    && InOrder(ts, removed)
    && OldestFirst(ts, inUse, stuck, removed)
    && (runs + Left(ts, Names(removed)) > cap ==>
          forall t | t in ts && t.dir !in removed :: BusyUnder(inUse, t.dir) || t.dir in stuck)
  }

  /** Every eviction happens with the total still over the cap. */
  ghost predicate StaysOver(ts: seq<Template>, runs: nat, cap: int, removed: seq<string>) {
    forall k | 0 <= k < |removed| :: runs + Left(ts, Names(removed[..k])) > cap
  }

  /** They go in the order of their ages. */
  ghost predicate InOrder(ts: seq<Template>, removed: seq<string>) {
    forall i, j, t, u | 0 <= i < j < |removed| && t in ts && u in ts && t.dir == removed[i] && u.dir == removed[j] ::
      t.lastUsed <= u.lastUsed
  }

  /** Nothing that could have gone instead is strictly older than what went. */
  ghost predicate OldestFirst(ts: seq<Template>, inUse: set<string>, stuck: set<string>, removed: seq<string>) {
    forall t, u | t in ts && u in ts && t.dir in removed && u.dir !in removed && !BusyUnder(inUse, u.dir)
        && u.dir !in stuck ::
      t.lastUsed <= u.lastUsed
  }

  function Scanned(found: seq<Found>): (ts: seq<Template>)
    ensures |ts| == |found|
    ensures forall i | 0 <= i < |found| :: ts[i] == Template(found[i].dir, LastUsed(found[i]), found[i].size)
  {
    seq(|found|, i requires 0 <= i < |found| => Template(found[i].dir, LastUsed(found[i]), found[i].size))
  }

  /** Whatever came before the i-th template is gone, busy or stuck. */
  ghost predicate Tried(ts: seq<Template>, i: nat, inUse: set<string>, stuck: set<string>, removed: seq<string>) {
    i <= |ts| && forall k | 0 <= k < i :: ts[k].dir in removed || BusyUnder(inUse, ts[k].dir) || ts[k].dir in stuck
  }

  ghost predicate Removable(inUse: set<string>, stuck: set<string>, removed: seq<string>) {
    forall d | d in removed :: !BusyUnder(inUse, d) && d !in stuck
  }

  /** The loop over the sorted templates. */
  method Evict(ts: seq<Template>, runs: nat, cap: int, inUse: set<string>, stuck: set<string>)
      returns (removed: seq<string>)
    requires DirsDistinct(ts) && Sorted(Older, ts)
    ensures Outcome(ts, runs, cap, inUse, stuck, removed)
  {
    var total: int := runs + Left(ts, {});
    removed := [];
    ghost var picked: seq<nat> := [];
    var i := 0;
    assert Names([]) == {};
    while i < |ts| && total > cap
      invariant total == runs + Left(ts, Names(removed))
      invariant Removable(inUse, stuck, removed) && Picked(ts, i, picked, removed)
      invariant Tried(ts, i, inUse, stuck, removed) && StaysOver(ts, runs, cap, removed)
    {
      var t := ts[i];
      if !BusyUnder(inUse, t.dir) && t.dir !in stuck {
        OneMore(ts, i, picked, removed);
        total := total - t.size;
        Appended(ts, runs, cap, removed, t.dir);
        removed, picked := removed + [t.dir], picked + [i];
      }
      i := i + 1;
    }
    PickedInOrder(ts, i, picked, removed);
    PickedOldest(ts, i, inUse, stuck, picked, removed);
  }

  lemma OneMore(ts: seq<Template>, i: nat, picked: seq<nat>, removed: seq<string>)
    requires i < |ts| && DirsDistinct(ts) && Picked(ts, i, picked, removed)
    ensures Picked(ts, i + 1, picked + [i], removed + [ts[i].dir])
    ensures Left(ts, Names(removed + [ts[i].dir])) == Left(ts, Names(removed)) - ts[i].size
  {
    PickOne(ts, i, picked, removed);
    NotYetGone(ts, i, picked, removed);
    LeftLess(ts, Names(removed), i);
    assert Names(removed + [ts[i].dir]) == Names(removed) + {ts[i].dir};
  }

  lemma PickOne(ts: seq<Template>, i: nat, picked: seq<nat>, removed: seq<string>)
    requires i < |ts| && Picked(ts, i, picked, removed)
    ensures Picked(ts, i + 1, picked + [i], removed + [ts[i].dir])
  {
  }

  lemma NotYetGone(ts: seq<Template>, i: nat, picked: seq<nat>, removed: seq<string>)
    requires i < |ts| && DirsDistinct(ts) && Picked(ts, i, picked, removed)
    ensures ts[i].dir !in Names(removed)
  {
    forall k | 0 <= k < |removed| ensures removed[k] != ts[i].dir {
      assert removed[k] == ts[picked[k]].dir;
    }
  }

  lemma PickedOldest(ts: seq<Template>, i: nat, inUse: set<string>, stuck: set<string>, picked: seq<nat>,
      removed: seq<string>)
    requires DirsDistinct(ts) && Sorted(Older, ts) && Picked(ts, i, picked, removed)
             && Tried(ts, i, inUse, stuck, removed)
    ensures OldestFirst(ts, inUse, stuck, removed)
  {
    forall t, u | t in ts && u in ts && t.dir in removed && u.dir !in removed && !BusyUnder(inUse, u.dir)
        && u.dir !in stuck
      ensures t.lastUsed <= u.lastUsed
    {
      var k :| 0 <= k < |removed| && removed[k] == t.dir;
      AtIndex(ts, t, picked[k]);
      var j :| 0 <= j < |ts| && ts[j] == u;
      assert j >= i;
      assert Older(ts[picked[k]], ts[j]);
    }
  }

  lemma Appended(ts: seq<Template>, runs: nat, cap: int, removed: seq<string>, d: string)
    requires StaysOver(ts, runs, cap, removed) && runs + Left(ts, Names(removed)) > cap
    ensures StaysOver(ts, runs, cap, removed + [d])
  {
    forall k | 0 <= k < |removed + [d]| ensures runs + Left(ts, Names((removed + [d])[..k])) > cap {
      assert (removed + [d])[..k] == removed[..k];
      if k == |removed| {
        assert removed[..k] == removed;
      }
    }
  }

  /** `removed` names the templates picked, going up through `ts`. */
  ghost predicate Picked(ts: seq<Template>, i: nat, picked: seq<nat>, removed: seq<string>) {
    && |picked| == |removed| && i <= |ts|
    && (forall k | 0 <= k < |picked| :: picked[k] < i && removed[k] == ts[picked[k]].dir)
    && (forall a, b | 0 <= a < b < |picked| :: picked[a] < picked[b])
  }

  lemma AtIndex(ts: seq<Template>, t: Template, k: nat)
    requires DirsDistinct(ts) && t in ts && k < |ts| && t.dir == ts[k].dir
    ensures t == ts[k]
  {
    var j :| 0 <= j < |ts| && ts[j] == t;
  }

  lemma PickedInOrder(ts: seq<Template>, i: nat, picked: seq<nat>, removed: seq<string>)
    requires DirsDistinct(ts) && Sorted(Older, ts) && Picked(ts, i, picked, removed)
    ensures InOrder(ts, removed)
    ensures forall d | d in removed :: exists t :: t in ts && t.dir == d
    ensures forall a, b | 0 <= a < b < |removed| :: removed[a] != removed[b]
  {
    forall a, b, t, u | 0 <= a < b < |removed| && t in ts && u in ts && t.dir == removed[a] && u.dir == removed[b]
      ensures t.lastUsed <= u.lastUsed
    {
      AtIndex(ts, t, picked[a]);
      AtIndex(ts, u, picked[b]);
      assert Older(ts[picked[a]], ts[picked[b]]);
    }
  }

  lemma OlderIsTotal()
    ensures Total(Older)
  {
  }

  /** The sizes add up the same, and the outcome reads the same, before and after sorting. */
  lemma SortedOutcome(ts: seq<Template>, runs: nat, cap: int, inUse: set<string>, stuck: set<string>,
      removed: seq<string>)
    requires Outcome(Sort(Older, ts), runs, cap, inUse, stuck, removed)
    ensures Outcome(ts, runs, cap, inUse, stuck, removed)
  {
    var sorted := Sort(Older, ts);
    OlderIsTotal();
    SortSorts(Older, ts);
    forall t ensures t in ts <==> t in sorted {
      assert t in multiset(ts) <==> t in multiset(sorted);
    }
    LeftSorted(ts, Names(removed));
    forall k | 0 <= k < |removed| ensures runs + Left(ts, Names(removed[..k])) > cap {
      LeftSorted(ts, Names(removed[..k]));
    }
  }

  lemma {:induction false} SortedDistinct(ts: seq<Template>)
    requires DirsDistinct(ts)
    ensures DirsDistinct(Sort(Older, ts))
  {
    if ts != [] {
      SortedDistinct(ts[1..]);
      OlderIsTotal();
      SortSorts(Older, ts[1..]);
      forall t | t in Sort(Older, ts[1..]) ensures t.dir != ts[0].dir {
        assert t in multiset(ts[1..]);
      }
      InsertDistinct(ts[0], Sort(Older, ts[1..]));
    }
  }

  lemma {:induction false} InsertDistinct(t: Template, ts: seq<Template>)
    requires DirsDistinct(ts) && forall u | u in ts :: u.dir != t.dir
    ensures DirsDistinct(Insert(Older, t, ts)) && forall u :: u in Insert(Older, t, ts) <==> u == t || u in ts
  {
    if ts != [] && !Older(t, ts[0]) {
      InsertDistinct(t, ts[1..]);
      var rest := Insert(Older, t, ts[1..]);
      forall i | 0 <= i < |rest| ensures rest[i].dir != ts[0].dir {
        assert rest[i] in rest;
      }
    }
  }

  // ----- The same on the directories found -----

  /** When a directory was last used: its stamp says, unless it has none or the stamp is
      the zero time; then its manifest's creation time does, and failing that the zero time
      stands. */
  ghost predicate Dated(f: Found, t: int) {
    var stamped := f.stamp.Some? && f.stamp.value != -62_135_596_800;
    && (stamped ==> f.stamp == Some(t))
    && (!stamped && f.created.Some? ==> f.created == Some(t))
    && (!stamped && f.created.None? ==> t == -62_135_596_800)
  }

  /** Some path below the directory is in use. */
  ghost predicate UsedBelow(inUse: set<string>, dir: string) {
    exists rest :: dir + "/" + rest in inUse
  }

  lemma BusyUnderIff(inUse: set<string>, dir: string)
    ensures BusyUnder(inUse, dir) <==> UsedBelow(inUse, dir)
  {
    if BusyUnder(inUse, dir) {
      var p :| p in inUse && dir + "/" <= p;
      assert p == dir + "/" + p[|dir| + 1..];
    }
    if UsedBelow(inUse, dir) {
      var rest :| dir + "/" + rest in inUse;
      assert dir + "/" <= dir + "/" + rest;
    }
  }

  /** Least recently used first: what went was last used no later than what went after it,
      and no later than what could have gone and stayed. */
  ghost predicate LeastRecentFirst(found: seq<Found>, inUse: set<string>, stuck: set<string>, removed: seq<string>) {
    && (forall i, j, f, g, t, u | 0 <= i < j < |removed| && f in found && g in found && f.dir == removed[i]
          && g.dir == removed[j] && Dated(f, t) && Dated(g, u) ::
          t <= u)
    && (forall f, g, t, u | f in found && g in found && f.dir in removed && g.dir !in removed
          && !UsedBelow(inUse, g.dir) && g.dir !in stuck && Dated(f, t) && Dated(g, u) ::
          t <= u)
  }

  lemma FoundIsScanned(found: seq<Found>, f: Found, t: int)
    requires f in found && Dated(f, t)
    ensures Template(f.dir, t, f.size) in Scanned(found)
  {
    var i :| 0 <= i < |found| && found[i] == f;
    assert Scanned(found)[i] == Template(f.dir, t, f.size);
  }

  lemma OutcomeIsLeastRecent(found: seq<Found>, runs: nat, cap: int, inUse: set<string>, stuck: set<string>,
      removed: seq<string>)
    requires Outcome(Scanned(found), runs, cap, inUse, stuck, removed)
    ensures LeastRecentFirst(found, inUse, stuck, removed)
  {
    forall i, j, f, g, t, u | 0 <= i < j < |removed| && f in found && g in found && f.dir == removed[i]
        && g.dir == removed[j] && Dated(f, t) && Dated(g, u)
      ensures t <= u
    {
      FoundIsScanned(found, f, t);
      FoundIsScanned(found, g, u);
    }
    forall f, g, t, u | f in found && g in found && f.dir in removed && g.dir !in removed
        && !UsedBelow(inUse, g.dir) && g.dir !in stuck && Dated(f, t) && Dated(g, u)
      ensures t <= u
    {
      FoundIsScanned(found, f, t);
      FoundIsScanned(found, g, u);
      BusyUnderIff(inUse, g.dir);
    }
  }

  /** In particular of two directories with a stamp the one that went has the older, and a
      creation time counts for nothing beside a stamp. */
  lemma OlderStampGoes(found: seq<Found>, inUse: set<string>, stuck: set<string>, removed: seq<string>, f: Found,
      g: Found)
    requires LeastRecentFirst(found, inUse, stuck, removed) && f in found && g in found
    requires f.dir in removed && g.dir !in removed && g.dir !in stuck && !UsedBelow(inUse, g.dir)
    requires f.stamp.Some? && g.stamp.Some?
             && f.stamp.value != -62_135_596_800 && g.stamp.value != -62_135_596_800
    ensures f.stamp.value <= g.stamp.value
  {
    assert Dated(f, f.stamp.value) && Dated(g, g.stamp.value);
  }

  /** Sweep: which templates go, in which order.  `runs` is the run volumes' size, `stuck`
      are the directories whose removal fails, and `cancelled` is the template before which
      the scan finds its context done, if it does: then nothing goes. */
  method Sweep(found: seq<Found>, runs: nat, maxBytes: int, inUse: set<string>, stuck: set<string>,
      cancelled: Option<nat>) returns (removed: seq<string>)
    requires DirsDistinct(Scanned(found))
    ensures maxBytes <= 0 || runs + Left(Scanned(found), {}) <= maxBytes ==> removed == []
    ensures cancelled.Some? && cancelled.value < |found| ==> removed == []
    ensures maxBytes > 0 && !(cancelled.Some? && cancelled.value < |found|) ==>
              && Outcome(Scanned(found), runs, maxBytes, inUse, stuck, removed)
              && LeastRecentFirst(found, inUse, stuck, removed)
  {
    if maxBytes <= 0 {
      return [];
    }
    var total: int := runs;
    var templates := [];
    for i := 0 to |found|
      invariant templates == Scanned(found)[..i]
      invariant total == runs + Left(templates, {})
      invariant cancelled.Some? ==> i <= cancelled.value
    {
      if cancelled == Some(i) {
        return [];
      }
      total := total + found[i].size;
      LeftSnoc(templates, {}, Template(found[i].dir, LastUsed(found[i]), found[i].size));
      templates := templates + [Template(found[i].dir, LastUsed(found[i]), found[i].size)];
    }
    assert templates == Scanned(found);
    if total <= maxBytes {
      assert Names([]) == {};
      OutcomeIsLeastRecent(found, runs, maxBytes, inUse, stuck, []);
      return [];
    }
    OlderIsTotal();
    SortSorts(Older, templates);
    SortedDistinct(templates);
    removed := Evict(Sort(Older, templates), runs, maxBytes, inUse, stuck);
    SortedOutcome(templates, runs, maxBytes, inUse, stuck, removed);
    OutcomeIsLeastRecent(found, runs, maxBytes, inUse, stuck, removed);
  }

  /** The bytes left are the sizes of the templates that are not gone. */
  lemma {:induction false} LeftSnoc(ts: seq<Template>, gone: set<string>, t: Template)
    ensures Left([], gone) == 0
    ensures Left(ts + [t], gone) == Left(ts, gone) + if t.dir in gone then 0 else t.size
  {
    if ts != [] {
      LeftSnoc(ts[1..], gone, t);
      assert (ts + [t])[1..] == ts[1..] + [t];
    }
  }
}
