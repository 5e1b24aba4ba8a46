/** The warm cache of one repository as a machine of interleaved threads: boots copying
    the current generation, commits building and publishing new ones, cleaners taking
    superseded ones away, and the runs' own volumes.  Every path operation and every
    section under the store's lock is one step. */
module WarmCache {
  import opened Prelude
  import opened WarmTree

  // ----- Names in the repository's directory -----

  /** `^g-[0-9a-z]+$` */
  predicate IsGen(name: string) {
    "g-" <= name && |name| > 2 && forall c | c in name[2..] :: '0' <= c <= '9' || 'a' <= c <= 'z'
  }

  predicate IsTrash(name: string) {
    "t-g-" <= name
  }

  function Trash(name: string): string {
    "t-" + name
  }

  /** The renamed directory has left the namespace of generations, and only there. */
  lemma TrashIsApart(name: string)
    requires IsGen(name)
    ensures IsTrash(Trash(name)) && !IsGen(Trash(name)) && !IsTrash(name)
  {
    assert Trash(name)[0] == 't';
    assert Trash(name)[2..4] == name[..2];
    assert name[0] == 'g';
  }

  // ----- The state -----

  datatype Manifest = Manifest(repo: string, lockHash: string, repoDir: string, gen: string)

  /** Not a manifest some commit wrote; one that cannot be parsed has no fields at all. */
  predicate Corrupt(mf: Manifest) {
    mf.repo == "" || !IsGen(mf.gen)
  }

  /** What an in-use mark stands on. */
  datatype Mark = Gen(name: string) | Vol(id: string)

  /** The lockfile hash of a tree and the clone's directory, or a read error. */
  type HashFn = Tree -> Result<(string, string), ()>

  /** Where a Boot stands. */
  datatype BootPc =
    | ReadManifest(attempt: nat)
    | MarkGen(attempt: nat, mf: Manifest)
    | CopyGen(attempt: nat, mf: Manifest, todo: set<Task>)
    | UnmarkGen(attempt: nat, mf: Manifest, outcome: Outcome)
    | ClearVol(attempt: nat, outcome: Outcome)
    | MakeEmpty
    | Booted(mf: Manifest)
    | Cold
    | BootFailed

  /** Where a Commit stands. */
  datatype CommitPc =
    | ReadLocks
    | MarkGenDir
    | MarkVol
    | CopyVol(todo: set<Task>)
    | UnmarkVol(outcome: Outcome)
    | Publish
    | UnmarkGenDir(published: bool)
    | RemoveGenDir
    | Committed(ok: bool)

  /** The lockfiles as a commit read them; `src` remembers the whole volume. */
  datatype Locks = Locks(src: Tree, hash: string, repoDir: string)

  datatype Commit = Commit(id: string, gen: string, locks: Locks, pc: CommitPc)

  /** Where a cleanGenerations pass stands. */
  datatype CleanPc =
    | ReadCurrent
    | ListDir(current: string)
    | Scan(current: string, todo: set<string>)
    | RenameGen(current: string, todo: set<string>, name: string)
    | RemoveDir(current: string, todo: set<string>, name: string)

  /** `dirs` is the repository's directory, `vols` the runs' volumes; `published`
      remembers every tree a manifest was ever written for. */
  datatype World = World(
    hash: HashFn,
    repo: string,
    manifest: Option<Manifest>,
    dirs: map<string, Tree>,
    vols: map<string, Tree>,
    inUse: map<Mark, nat>,
    boots: map<string, BootPc>,
    commits: map<nat, Commit>,
    cleaners: map<nat, CleanPc>,
    ready: set<string>,
    ids: set<string>,
    used: set<string>,
    published: map<string, Tree>)

  // ----- The in-use set -----

  function Uses(inUse: map<Mark, nat>, m: Mark): nat {
    if m in inUse then inUse[m] else 0
  }

  function Marked(inUse: map<Mark, nat>, m: Mark): map<Mark, nat> {
    inUse[m := Uses(inUse, m) + 1]
  }

  function Unmarked(inUse: map<Mark, nat>, m: Mark): map<Mark, nat> {
    if Uses(inUse, m) <= 1 then inUse - {m} else inUse[m := inUse[m] - 1]
  }

  // ----- Steps -----

  /** The tree at a path, nothing there being no entries. */
  function At<K>(m: map<K, Tree>, k: K): Tree {
    if k in m then m[k] else map[]
  }

  function Store<K>(m: map<K, Tree>, k: K, t: Tree): map<K, Tree> {
    if t == map[] then m - {k} else m[k := t]
  }

  /** Where an opened directory of a generation is: a rename takes it along. */
  function Held(dirs: map<string, Tree>, gen: string): Tree {
    if gen in dirs then dirs[gen] else At(dirs, Trash(gen))
  }

  /** What one step of a Boot does: its next position, its volume (no entries: none
      there), and the in-use set. */
  datatype BootMove = BootMove(pc: BootPc, vol: Tree, inUse: map<Mark, nat>)

  function BootNext(pc: BootPc, manifest: Option<Manifest>, dirs: map<string, Tree>, vol: Tree, inUse: map<Mark, nat>,
      t: Task): BootMove {
    match pc
    case ReadManifest(attempt) =>
      if attempt >= 3 || manifest.None? then BootMove(MakeEmpty, vol, inUse)
      else if Corrupt(manifest.value) then BootMove(BootFailed, vol, inUse)
      else BootMove(MarkGen(attempt, manifest.value), vol, inUse)
    case MarkGen(attempt, mf) =>
      BootMove(CopyGen(attempt, mf, START), vol, Marked(inUse, Gen(mf.gen)))
    case CopyGen(attempt, mf, todo) =>
      if todo == {} then BootMove(UnmarkGen(attempt, mf, Going), vol, inUse)
      else if !Ready(todo, t) then BootMove(pc, vol, inUse)
      else
        var c := CopyStep(At(dirs, mf.gen), Held(dirs, mf.gen), vol, todo, t);
        BootMove(if c.outcome == Going then CopyGen(attempt, mf, c.todo)
            else UnmarkGen(attempt, mf, c.outcome), c.dst, inUse)
    case UnmarkGen(attempt, mf, outcome) =>
      BootMove(if outcome == Going then Booted(mf) else ClearVol(attempt, outcome), vol, Unmarked(inUse, Gen(mf.gen)))
    case ClearVol(attempt, outcome) =>
      BootMove(if outcome == Vanished then ReadManifest(attempt + 1) else BootFailed, map[], inUse)
    case MakeEmpty =>
      BootMove(Cold, if vol == map[] then EMPTY_DIR else vol, inUse)
    case _ => BootMove(pc, vol, inUse)
  }

  function BootStep(w: World, id: string, t: Task): World
    requires id in w.boots
  {
    var m := BootNext(w.boots[id], w.manifest, w.dirs, At(w.vols, id), w.inUse, t);
    w.(vols := Store(w.vols, id, m.vol), inUse := m.inUse, boots := w.boots[id := m.pc])
  }

  /** What one step of a Commit does: its next position and what it read, its
      generation's directory, the in-use set, and whether the manifest is swapped. */
  datatype CommitMove = CommitMove(pc: CommitPc, locks: Locks, gen: Tree, inUse: map<Mark, nat>, publish: bool)

  function CommitNext(hash: HashFn, c: Commit, vol: Tree, gen: Tree, inUse: map<Mark, nat>, t: Task,
      writeOk: bool): CommitMove {
    match c.pc
    case ReadLocks =>
      var h := hash(vol);
      if h.Err? then CommitMove(Committed(false), c.locks, gen, inUse, false)
      else CommitMove(MarkGenDir, Locks(vol, h.value.0, h.value.1), gen, inUse, false)
    case MarkGenDir => CommitMove(MarkVol, c.locks, gen, Marked(inUse, Gen(c.gen)), false)
    case MarkVol => CommitMove(CopyVol(START), c.locks, gen, Marked(inUse, Vol(c.id)), false)
    case CopyVol(todo) =>
      if todo == {} then CommitMove(UnmarkVol(Going), c.locks, gen, inUse, false)
      else if !Ready(todo, t) then CommitMove(c.pc, c.locks, gen, inUse, false)
      else
        var s := CopyStep(vol, vol, gen, todo, t);
        CommitMove(if s.outcome == Going then CopyVol(s.todo) else UnmarkVol(s.outcome), c.locks, s.dst, inUse, false)
    case UnmarkVol(outcome) =>
      CommitMove(if outcome == Going then Publish
          else UnmarkGenDir(false), c.locks, gen, Unmarked(inUse, Vol(c.id)), false)
    case Publish => CommitMove(UnmarkGenDir(writeOk), c.locks, gen, inUse, writeOk)
    case UnmarkGenDir(published) =>
      CommitMove(if published then Committed(true) else RemoveGenDir, c.locks, gen, Unmarked(inUse, Gen(c.gen)), false)
    case RemoveGenDir => CommitMove(Committed(false), c.locks, map[], inUse, false)
    case Committed(_) => CommitMove(c.pc, c.locks, gen, inUse, false)
  }

  function CommitStep(w: World, cid: nat, t: Task, writeOk: bool): World
    requires cid in w.commits
  {
    var c := w.commits[cid];
    var m := CommitNext(w.hash, c, At(w.vols, c.id), At(w.dirs, c.gen), w.inUse, t, writeOk);
    w.(dirs := Store(w.dirs, c.gen, m.gen),
       inUse := m.inUse,
       commits := w.commits[cid := c.(pc := m.pc, locks := m.locks)],
       manifest := if m.publish then Some(Manifest(w.repo, c.locks.hash, c.locks.repoDir, c.gen)) else w.manifest,
       published := if m.publish then w.published[c.gen := m.gen] else w.published)
  }

  /** os.Rename refuses a directory as its destination, even an empty one. */
  predicate CanRename(dirs: map<string, Tree>, name: string) {
    name in dirs && Trash(name) !in dirs
  }

  /** What one step of a cleaner does: its next position (`None`: the pass is over) and
      the directory. */
  datatype CleanMove = CleanMove(pc: Option<CleanPc>, dirs: map<string, Tree>)

  function CleanNext(pc: CleanPc, manifest: Option<Manifest>, dirs: map<string, Tree>, inUse: map<Mark, nat>,
      name: string): CleanMove {
    match pc
    case ReadCurrent =>
      CleanMove(Some(ListDir(if manifest.Some? then manifest.value.gen else "")), dirs)
    case ListDir(current) =>
      CleanMove(Some(Scan(current, set n | n in dirs && (IsGen(n) || IsTrash(n)))), dirs)
    case Scan(current, todo) =>
      if todo == {} then CleanMove(None, dirs)
      else if name !in todo then CleanMove(Some(pc), dirs)
      else if !IsGen(name) then CleanMove(Some(RemoveDir(current, todo - {name}, name)), dirs)
      else if name == current || Uses(inUse, Gen(name)) > 0 then CleanMove(Some(Scan(current, todo - {name})), dirs)
      else CleanMove(Some(RenameGen(current, todo - {name}, name)), dirs)
    case RenameGen(current, todo, n) =>
      if CanRename(dirs, n)
      then CleanMove(Some(RemoveDir(current, todo, Trash(n))), (dirs - {n})[Trash(n) := dirs[n]])
      else CleanMove(Some(Scan(current, todo)), dirs)
    case RemoveDir(current, todo, n) =>
      CleanMove(Some(Scan(current, todo)), dirs - {n})
  }

  function CleanStep(w: World, k: nat, name: string): World
    requires k in w.cleaners
  {
    var m := CleanNext(w.cleaners[k], w.manifest, w.dirs, w.inUse, name);
    w.(dirs := m.dirs, cleaners := if m.pc.Some? then w.cleaners[k := m.pc.value] else w.cleaners - {k})
  }

  /** RemoveAll under way: some entries are gone already. */
  function Unlinked(dirs: map<string, Tree>, name: string, gone: set<Rel>): map<string, Tree> {
    Store(dirs, name, At(dirs, name) - gone)
  }

  // ----- Events -----

  datatype Event =
    | BootBegin(id: string)
    | BootGo(id: string, task: Task)
    | BootReturn(id: string)
    | Work(id: string, tree: Tree)
    | Release(id: string)
    | CommitBegin(cid: nat, id: string, gen: string)
    | CommitGo(cid: nat, task: Task, writeOk: bool)
    | CommitUnlink(cid: nat, gone: set<Rel>)
    | CleanBegin(k: nat)
    | CleanGo(k: nat, name: string)
    | CleanUnlink(k: nat, gone: set<Rel>)

  predicate Copying(c: Commit) {
    c.pc.ReadLocks? || c.pc.MarkGenDir? || c.pc.MarkVol? || c.pc.CopyVol?
  }

  /** A commit is reading the volume; the run's workload is taken to rest meanwhile. */
  predicate BeingRead(w: World, id: string) {
    exists cid | cid in w.commits :: w.commits[cid].id == id && Copying(w.commits[cid])
  }

  function Apply(w: World, e: Event): World {
    match e
    case BootBegin(id) =>
      if id in w.ids || id in w.vols then w
      else w.(boots := w.boots[id := ReadManifest(0)], ids := w.ids + {id})
    case BootGo(id, t) =>
      if id in w.boots then BootStep(w, id, t) else w
    case BootReturn(id) =>
      if id in w.boots && (w.boots[id].Booted? || w.boots[id].Cold?)
      then w.(boots := w.boots - {id}, ready := w.ready + {id}) else w
    case Work(id, tree) =>
      if id in w.ready && id in w.vols && WellFormed(tree)
          && !BeingRead(w, id) then w.(vols := w.vols[id := tree]) else w
    case Release(id) =>
      if id in w.ready && Uses(w.inUse, Vol(id)) == 0 then w.(vols := w.vols - {id}) else w
    case CommitBegin(cid, id, gen) =>
      if cid !in w.commits && id in w.ready && IsGen(gen) && gen !in w.used
      then w.(commits := w.commits[cid := Commit(id, gen, Locks(map[], "", ""), ReadLocks)], used := w.used + {gen})
          else w
    case CommitGo(cid, t, writeOk) =>
      if cid in w.commits then CommitStep(w, cid, t, writeOk) else w
    case CommitUnlink(cid, gone) =>
      if cid in w.commits && w.commits[cid].pc.RemoveGenDir?
      then w.(dirs := Unlinked(w.dirs, w.commits[cid].gen, gone)) else w
    case CleanBegin(k) =>
      if k in w.cleaners then w else w.(cleaners := w.cleaners[k := ReadCurrent])
    case CleanGo(k, name) =>
      if k in w.cleaners then CleanStep(w, k, name) else w
    case CleanUnlink(k, gone) =>
      if k in w.cleaners && w.cleaners[k].RemoveDir?
      then w.(dirs := Unlinked(w.dirs, w.cleaners[k].name, gone)) else w
  }

  function Run(w: World, es: seq<Event>): World
    decreases |es|
  {
    if es == [] then w else Run(Apply(w, es[0]), es[1..])
  }

  lemma {:induction false} RunSnoc(w: World, es: seq<Event>, e: Event)
    ensures Run(w, es + [e]) == Apply(Run(w, es), e)
    decreases |es|
  {
    if es == [] {
      assert Run(w, [e]) == Run(Apply(w, e), []);
    } else {
      assert (es + [e])[1..] == es[1..] + [e];
      RunSnoc(Apply(w, es[0]), es[1..], e);
    }
  }

  /** Runs one more event at the end. */
  lemma Then(w0: World, es: seq<Event>, w: World, e: Event) returns (es': seq<Event>, w': World)
    requires w == Run(w0, es)
    ensures es' == es + [e] && w' == Apply(w, e) == Run(w0, es')
  {
    RunSnoc(w0, es, e);
    es', w' := es + [e], Apply(w, e);
  }
}
