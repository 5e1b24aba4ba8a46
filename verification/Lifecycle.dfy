/** Who owns each run and what it holds, while any number of creates, destroys, reaps and
    warm commits interleave.  Every call into the runtime, the cache or the proxy pool,
    and every section under the manager's lock, is one step. */
module Lifecycle {
  import opened Prelude

  /** What a create request asks for beyond a container. */
  datatype Spec = Spec(warm: bool, fromSnapshot: bool, extra: bool)

  /** One cleanup call. */
  datatype Action = ReleaseVolume | CloseProxy | RemoveContainer

  datatype CreatePc = BootVolume | OpenProxy | StartContainer | SeedVolume | Insert | Undo(todo: seq<Action>)

  datatype DestroyPc = Remove | Drop(todo: seq<Action>)

  datatype CommitPc = Mark | Copying | Recheck | LateRelease

  /** A reaper works through its queue; `todo` is what is left for the head. */
  datatype Thread =
    | Creating(id: string, pc: CreatePc)
    | Destroying(id: string, dpc: DestroyPc)
    | Reaping(queue: seq<string>, todo: seq<Action>)
    | Committing(id: string, cpc: CommitPc)

  /** The outside world: volumes under runs/ and their in-use marks, private listeners,
      containers that exist, how often each was removed, the containers whose removal
      failed in a reap or a seed-failure cleanup, and the volumes some commit released. */
  datatype Res = Res(
    volumes: set<string>,
    marks: map<string, nat>,
    listeners: set<string>,
    live: set<string>,
    removals: map<string, nat>,
    leaked: set<string>,
    lost: set<string>)

  datatype Ledger = Ledger(tracked: set<string>, threads: map<nat, Thread>, specs: map<string, Spec>, res: Res)

  function Count(m: map<string, nat>, id: string): nat {
    if id in m then m[id] else 0
  }

  /** CacheStore.Release: nothing happens while a commit holds the volume. */
  function Release(res: Res, id: string): Res {
    if Count(res.marks, id) > 0 then res else res.(volumes := res.volumes - {id})
  }

  function Removed(res: Res, id: string): Res {
    res.(live := res.live - {id}, removals := res.removals[id := Count(res.removals, id) + 1])
  }

  /** A cleanup call whose failure is only logged. */
  function Do(res: Res, id: string, a: Action, ok: bool): Res {
    match a
    case ReleaseVolume => Release(res, id)
    case CloseProxy => res.(listeners := res.listeners - {id})
    case RemoveContainer => if ok then Removed(res, id) else res.(leaked := res.leaked + {id})
  }

  function VolumeFirst(spec: Spec, rest: seq<Action>): seq<Action> {
    if spec.warm then [ReleaseVolume] + rest else rest
  }

  /** What a thread does in one step; `None`: it has returned. */
  datatype Move = Move(thread: Option<Thread>, tracked: set<string>, res: Res)

  function CreateStep(id: string, pc: CreatePc, spec: Spec, tracked: set<string>, res: Res, ok: bool): Move {
    match pc
    case BootVolume =>
      if !spec.warm then Move(Some(Creating(id, OpenProxy)), tracked, res)
      else if ok then Move(Some(Creating(id, OpenProxy)), tracked, res.(volumes := res.volumes + {id}))
      else Move(None, tracked, res)
    case OpenProxy =>
      if !spec.extra then Move(Some(Creating(id, StartContainer)), tracked, res)
      else if ok then Move(Some(Creating(id, StartContainer)), tracked, res.(listeners := res.listeners + {id}))
      else Move(Some(Creating(id, Undo(VolumeFirst(spec, [])))), tracked, res)
    case StartContainer =>
      if ok then Move(Some(Creating(id, if spec.warm && spec.fromSnapshot then SeedVolume else Insert)), tracked,
          res.(live := res.live + {id}))
      else Move(Some(Creating(id, Undo(VolumeFirst(spec, [CloseProxy])))), tracked, res)
    case SeedVolume =>
      if ok then Move(Some(Creating(id, Insert)), tracked, res)
      else Move(Some(Creating(id, Undo([RemoveContainer] + VolumeFirst(spec, [CloseProxy])))), tracked, res)
    case Insert => Move(None, tracked + {id}, res)
    case Undo(todo) =>
      if todo == [] then Move(None, tracked, res)
      else Move(Some(Creating(id, Undo(todo[1..]))), tracked, Do(res, id, todo[0], ok))
  }

  function DestroyStep(id: string, pc: DestroyPc, spec: Spec, tracked: set<string>, res: Res, ok: bool): Move {
    match pc
    case Remove =>
      if ok then Move(Some(Destroying(id, Drop(VolumeFirst(spec, [CloseProxy])))), tracked, Removed(res, id))
      else Move(None, tracked + {id}, res)
    case Drop(todo) =>
      if todo == [] then Move(None, tracked, res)
      else Move(Some(Destroying(id, Drop(todo[1..]))), tracked, Do(res, id, todo[0], ok))
  }

  function ReapActions(spec: Spec): seq<Action> {
    VolumeFirst(spec, [CloseProxy, RemoveContainer])
  }

  function ReapStep(queue: seq<string>, todo: seq<Action>, specs: map<string, Spec>, tracked: set<string>, res: Res,
      ok: bool): Move
    requires forall id | id in queue :: id in specs
  {
    if queue == [] || (todo == [] && |queue| == 1) then Move(None, tracked, res)
    else if todo == [] then Move(Some(Reaping(queue[1..], ReapActions(specs[queue[1]]))), tracked, res)
    else Move(Some(Reaping(queue, todo[1..])), tracked, Do(res, queue[0], todo[0], ok))
  }

  /** CommitWarm: mark the volume and copy it, unmark, look the run up again, and release
      the volume when the run is gone.  (`ok` false before the mark: the lockfiles could
      not be read, and the commit goes straight to its second look-up.) */
  function CommitStep(id: string, pc: CommitPc, tracked: set<string>, res: Res, ok: bool): Move {
    match pc
    case Mark =>
      if ok then Move(Some(Committing(id, Copying)), tracked, res.(marks := res.marks[id := Count(res.marks, id) + 1]))
      else Move(Some(Committing(id, Recheck)), tracked, res)
    case Copying =>
      Move(Some(Committing(id, Recheck)), tracked,
           res.(marks := if Count(res.marks, id) <= 1 then res.marks - {id} else res.marks[id := res.marks[id] - 1]))
    case Recheck =>
      if id in tracked then Move(None, tracked, res) else Move(Some(Committing(id, LateRelease)), tracked, res)
    case LateRelease =>
      Move(None, tracked, if Count(res.marks, id) > 0 then res else Release(res, id).(lost := res.lost + {id}))
  }

  predicate Known(th: Thread, specs: map<string, Spec>) {
    if th.Reaping? then forall id | id in th.queue :: id in specs else th.id in specs
  }

  function Next(th: Thread, specs: map<string, Spec>, tracked: set<string>, res: Res, ok: bool): Move
    requires Known(th, specs)
  {
    match th
    case Creating(id, pc) => CreateStep(id, pc, specs[id], tracked, res, ok)
    case Destroying(id, pc) => DestroyStep(id, pc, specs[id], tracked, res, ok)
    case Reaping(queue, todo) => ReapStep(queue, todo, specs, tracked, res, ok)
    case Committing(id, pc) => CommitStep(id, pc, tracked, res, ok)
  }

  predicate Distinct(q: seq<string>) {
    forall i, j | 0 <= i < j < |q| :: q[i] != q[j]
  }

  datatype Event =
    | Create(t: nat, id: string, spec: Spec)
    | Destroy(t: nat, id: string)
    | Reap(t: nat, expired: seq<string>)
    | CommitWarm(t: nat, id: string)
    | Step(t: nat, ok: bool)

  /** A destroy that finds no run, or a commit on a run without a volume, returns at
      once; the clock decides which tracked runs a reap finds expired. */
  function Apply(l: Ledger, e: Event): Ledger {
    match e
    case Create(t, id, spec) =>
      if t in l.threads || id in l.specs then l
      else l.(threads := l.threads[t := Creating(id, BootVolume)], specs := l.specs[id := spec])
    case Destroy(t, id) =>
      if t in l.threads || id !in l.tracked then l
      else l.(threads := l.threads[t := Destroying(id, Remove)], tracked := l.tracked - {id})
    case Reap(t, q) =>
      if t in l.threads || q == [] || !Distinct(q) || !(forall id | id in q :: id in l.tracked && id in l.specs) then l
      else l.(threads := l.threads[t := Reaping(q, ReapActions(l.specs[q[0]]))],
          tracked := l.tracked - set id | id in q)
    case CommitWarm(t, id) =>
      if t in l.threads || id !in l.tracked || id !in l.specs || !l.specs[id].warm then l
      else l.(threads := l.threads[t := Committing(id, Mark)])
    case Step(t, ok) =>
      if t !in l.threads || !Known(l.threads[t], l.specs) then l
      else
        var m := Next(l.threads[t], l.specs, l.tracked, l.res, ok);
        l.(threads := if m.thread.Some? then l.threads[t := m.thread.value]
            else l.threads - {t}, tracked := m.tracked, res := m.res)
  }

  function Run(l: Ledger, es: seq<Event>): Ledger
    decreases |es|
  {
    if es == [] then l else Run(Apply(l, es[0]), es[1..])
  }

  lemma {:induction false} RunSnoc(l: Ledger, es: seq<Event>, e: Event)
    ensures Run(l, es + [e]) == Apply(Run(l, es), e)
    decreases |es|
  {
    if es == [] {
      assert Run(l, [e]) == Run(Apply(l, e), []);
    } else {
      assert (es + [e])[1..] == es[1..] + [e];
      RunSnoc(Apply(l, es[0]), es[1..], e);
    }
  }

  lemma Then(start: Ledger, es: seq<Event>, l: Ledger, e: Event) returns (es': seq<Event>, l': Ledger)
    requires l == Run(start, es)
    ensures l' == Apply(l, e) == Run(start, es')
  {
    RunSnoc(start, es, e);
    es', l' := es + [e], Apply(l, e);
  }

  const EMPTY := Ledger({}, map[], map[], Res({}, map[], {}, {}, map[], {}, {}))
}
