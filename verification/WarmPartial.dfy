/** When a boot that reports booted=true holds only a part of its generation, exactly. */
module WarmPartial {
  import opened Prelude
  import opened WarmTree
  import opened WarmCache
  import opened WarmSafety
  import opened WarmTheorems

  /** A cleaner has found the generation superseded and idle, and will rename it. */
  predicate DecidedOn(pc: CleanPc, gen: string) {
    pc.RenameGen? && pc.name == gen
  }

  ghost predicate Decided(cleaners: map<nat, CleanPc>, gen: string) {
    exists k :: k in cleaners && DecidedOn(cleaners[k], gen)
  }

  /** The boot has reported booted=true with this manifest, over an incomplete volume. */
  predicate BootedInPart(w: World, id: string, mf: Manifest) {
    id in w.boots && w.boots[id] == Booted(mf) && mf.gen in w.published && At(w.vols, id) != w.published[mf.gen]
  }

  // ----- Without such a cleaner, never -----

  /** A boot that cannot end in part of `mf`'s generation: it is copying one that stays, it
      has it all, or the generation is gone and it has not begun to copy it. */
  ghost predicate SafeAt(dirs: map<string, Tree>, cleaners: map<nat, CleanPc>, whole: Tree, vol: Tree, pc: BootPc,
      mf: Manifest) {
    || (mf.gen in dirs && !Decided(cleaners, mf.gen) && Holding(pc, mf))
    || (pc == Booted(mf) && vol == whole)
    || (mf.gen !in dirs && NotFinishing(pc, mf))
  }

  predicate Holding(pc: BootPc, mf: Manifest) {
    (pc.CopyGen? && pc.mf == mf) || (pc.UnmarkGen? && pc.mf == mf && pc.outcome == Going)
  }

  predicate NotFinishing(pc: BootPc, mf: Manifest) {
    match pc
    case CopyGen(_, m, todo) => m == mf ==> todo == START
    case UnmarkGen(_, m, o) => m == mf ==> o != Going
    case Booted(m) => m != mf
    case _ => true
  }

  ghost predicate Safe(w: World, id: string, mf: Manifest) {
    && id in w.ids && mf.gen in w.published
    && (id in w.boots ==> SafeAt(w.dirs, w.cleaners, w.published[mf.gen], At(w.vols, id), w.boots[id], mf))
  }

  lemma SafeStep(f: Facts, manifest: Option<Manifest>, dirs: map<string, Tree>, cleaners: map<nat, CleanPc>, vol: Tree,
                 inUse: map<Mark, nat>, pc: BootPc, t: Task, mf: Manifest)
    requires WholeOrGone(f.published, dirs) && BootOk(f, dirs, vol, pc) && mf.gen in f.published
    requires SafeAt(dirs, cleaners, f.published[mf.gen], vol, pc, mf)
    ensures var b := BootNext(pc, manifest, dirs, vol, inUse, t);
            SafeAt(dirs, cleaners, f.published[mf.gen], b.vol, b.pc, mf)
  {
    if pc.CopyGen? && pc.mf == mf && mf.gen in dirs {
      SafeCopy(f, manifest, dirs, vol, inUse, pc, t);
    } else if pc.CopyGen? && pc.mf == mf {
      GoneCopy(manifest, dirs, vol, inUse, pc, t);
    }
  }

  /** The copy of a generation that is gone fails at its first operation. */
  lemma GoneCopy(manifest: Option<Manifest>, dirs: map<string, Tree>, vol: Tree, inUse: map<Mark, nat>, pc: BootPc,
      t: Task)
    requires pc.CopyGen? && pc.todo == START && pc.mf.gen !in dirs
    ensures NotFinishing(BootNext(pc, manifest, dirs, vol, inUse, t).pc, pc.mf)
  {
    assert Enter([]) in START;
  }

  /** The copy of a generation that stays never fails. */
  lemma SafeCopy(f: Facts, manifest: Option<Manifest>, dirs: map<string, Tree>, vol: Tree, inUse: map<Mark, nat>,
      pc: BootPc, t: Task)
    requires WholeOrGone(f.published, dirs) && BootOk(f, dirs, vol, pc) && pc.CopyGen? && pc.mf.gen in dirs
    ensures Holding(BootNext(pc, manifest, dirs, vol, inUse, t).pc, pc.mf)
  {
    var whole := f.published[pc.mf.gen];
    assert CopyInv(whole, vol, pc.todo);
    if Ready(pc.todo, t) {
      CopyAdvances(whole, vol, pc.todo, t);
    }
  }

  /** A published generation that is gone does not come back. */
  lemma GoneStays(w: World, e: Event, g: string)
    requires Inv(w) && g in w.published && g !in w.dirs
    ensures g !in Apply(w, e).dirs
  {
    if e.CommitGo? || e.CommitUnlink? {
      CommitsSparePublished(w, e, g);
    } else if e.CleanGo? || e.CleanUnlink? {
      CleanerLeavesGone(w, e, g);
    } else {
      OthersKeepDirs(w, e);
    }
  }

  lemma CleanerLeavesGone(w: World, e: Event, g: string)
    requires IsGen(g) && g !in w.dirs && (e.CleanGo? || e.CleanUnlink?) && CleanersOk(w.used, w.commits, w.cleaners)
    ensures g !in Apply(w, e).dirs
  {
    if e.k in w.cleaners {
      assert CleanerOk(w.used, w.commits, w.cleaners[e.k]);
      if e.CleanGo? {
        CleaningLeavesGone(w.cleaners[e.k], w.manifest, w.dirs, w.inUse, e.name, g);
      }
    }
  }

  lemma CleaningLeavesGone(pc: CleanPc, manifest: Option<Manifest>, dirs: map<string, Tree>, inUse: map<Mark, nat>,
      name: string, g: string)
    requires IsGen(g) && g !in dirs
    ensures g !in CleanNext(pc, manifest, dirs, inUse, name).dirs
  {
    assert g[0] == 'g';
    if pc.RenameGen? {
      assert Trash(pc.name)[0] == 't';
    }
  }

  /** A marked generation is spared by every cleaner that has not decided yet. */
  lemma UndecidedStays(w: World, e: Event, g: string)
    requires Uses(w.inUse, Gen(g)) > 0 && !Decided(w.cleaners, g)
    ensures !Decided(Apply(w, e).cleaners, g)
  {
    forall k | k in Apply(w, e).cleaners ensures !DecidedOn(Apply(w, e).cleaners[k], g) {
      assert k in w.cleaners ==> !DecidedOn(w.cleaners[k], g);
      if e.CleanGo? {
        MarkedIsSpared(w, e, g, k);
      } else {
        CleanersElsewhere(w, e, k);
      }
    }
  }

  lemma MarkedIsSpared(w: World, e: Event, g: string, k: nat)
    requires Uses(w.inUse, Gen(g)) > 0 && e.CleanGo? && k in Apply(w, e).cleaners
    requires k in w.cleaners ==> !DecidedOn(w.cleaners[k], g)
    ensures !DecidedOn(Apply(w, e).cleaners[k], g)
  {
  }

  lemma CleanersElsewhere(w: World, e: Event, k: nat)
    requires !e.CleanGo? && k in Apply(w, e).cleaners
    ensures if k in w.cleaners then Apply(w, e).cleaners[k] == w.cleaners[k] else Apply(w, e).cleaners[k] == ReadCurrent
  {
  }

  /** What was published for a name stays. */
  lemma PublishedStays(w: World, e: Event, g: string)
    requires CommitsOk(FactsOf(w), w.vols, w.dirs, w.commits) && DirsOk(w.dirs, w.used) && g in w.published
    ensures g in Apply(w, e).published && Apply(w, e).published[g] == w.published[g]
  {
    if e.CommitGo? && e.cid in w.commits {
      assert CommitAt(FactsOf(w), w.vols, w.dirs, w.commits[e.cid]);
      CommitLeaves(w, e.cid, e.task, e.writeOk, g);
    } else {
      OthersPublishNothing(w, e);
    }
  }

  lemma OthersPublishNothing(w: World, e: Event)
    requires !(e.CommitGo? && e.cid in w.commits)
    ensures Apply(w, e).published == w.published
  {
  }

  /** An identifier boots once. */
  lemma BootsOnce(w: World, e: Event, id: string)
    requires id in w.ids && id !in w.boots
    ensures id in Apply(w, e).ids && id !in Apply(w, e).boots
  {
  }

  lemma IdsStay(w: World, e: Event)
    ensures w.ids <= Apply(w, e).ids
  {
  }

  /** Nothing another thread does makes a safe boot unsafe. */
  lemma OthersKeepSafe(w: World, e: Event, id: string, mf: Manifest)
    requires Inv(w) && mf.gen in w.published && id in w.boots && !(e.BootGo? && e.id == id)
    requires SafeAt(w.dirs, w.cleaners, w.published[mf.gen], At(w.vols, id), w.boots[id], mf)
    ensures SafeAt(Apply(w, e).dirs, Apply(w, e).cleaners, w.published[mf.gen], At(w.vols, id), w.boots[id], mf)
  {
    if mf.gen !in w.dirs {
      GoneStays(w, e, mf.gen);
    } else if !Decided(w.cleaners, mf.gen) && Holding(w.boots[id], mf) {
      assert BootHolds(w.boots[id], Gen(mf.gen));
      HeldByBootIsCounted(w, id, Gen(mf.gen));
      UndecidedStays(w, e, mf.gen);
      LostIff(w, e, mf.gen);
      assert e.CleanGo? && e.k in w.cleaners ==> !DecidedOn(w.cleaners[e.k], mf.gen);
    }
  }

  lemma SafeStays(w: World, e: Event, id: string, mf: Manifest)
    requires Inv(w) && Safe(w, id, mf)
    ensures Safe(Apply(w, e), id, mf)
  {
    PublishedStays(w, e, mf.gen);
    IdsStay(w, e);
    if id !in w.boots {
      BootsOnce(w, e, id);
    } else if e.BootGo? && e.id == id {
      OwnStepSafe(w, e, id, mf);
    } else {
      OthersKeepSafe(w, e, id, mf);
      BootUntouched(w, e, id);
    }
  }

  lemma OwnStepSafe(w: World, e: Event, id: string, mf: Manifest)
    requires Inv(w) && Safe(w, id, mf) && id in w.boots && e.BootGo? && e.id == id
    ensures Safe(Apply(w, e), id, mf)
  {
    var b := BootNext(w.boots[id], w.manifest, w.dirs, At(w.vols, id), w.inUse, e.task);
    AtStore(w.vols, id, b.vol);
    assert BootOk(FactsOf(w), w.dirs, At(w.vols, id), w.boots[id]);
    SafeStep(FactsOf(w), w.manifest, w.dirs, w.cleaners, At(w.vols, id), w.inUse, w.boots[id], e.task, mf);
  }

  lemma {:induction false} SafeForever(w: World, es: seq<Event>, id: string, mf: Manifest)
    requires Inv(w) && Safe(w, id, mf)
    ensures !BootedInPart(Run(w, es), id, mf)
    decreases |es|
  {
    if es != [] {
      ApplyKeeps(w, es[0]);
      SafeStays(w, es[0], id, mf);
      SafeForever(Apply(w, es[0]), es[1..], id, mf);
    }
  }

  /** There are no parts of an empty directory. */
  lemma {:induction false} EmptyHasNoParts(w: World, es: seq<Event>, id: string, mf: Manifest)
    requires Inv(w) && mf.gen in w.published && w.published[mf.gen] == EMPTY_DIR
    ensures !BootedInPart(Run(w, es), id, mf)
    decreases |es|
  {
    if es == [] {
      if id in w.boots && w.boots[id] == Booted(mf) {
        assert BootOk(FactsOf(w), w.dirs, At(w.vols, id), w.boots[id]);
        assert At(w.vols, id) == EMPTY_DIR;
      }
    } else {
      ApplyKeeps(w, es[0]);
      PublishedStays(w, es[0], mf.gen);
      EmptyHasNoParts(Apply(w, es[0]), es[1..], id, mf);
    }
  }

  // ----- With one, it happens -----

  /** One step of the boot. */
  lemma BootOn(w0: World, es0: seq<Event>, v: World, id: string, t: Task, b: BootMove)
      returns (es: seq<Event>, w: World)
    requires v == Run(w0, es0) && id in v.boots
             && b == BootNext(v.boots[id], v.manifest, v.dirs, At(v.vols, id), v.inUse, t)
    ensures w == Run(w0, es)
            && w == v.(vols := Store(v.vols, id, b.vol), boots := v.boots[id := b.pc], inUse := b.inUse)
  {
    es, w := Then(w0, es0, v, BootGo(id, t));
  }

  /** The boot enters the root, and opens it. */
  lemma OpenRoot(w0: World, es0: seq<Event>, v: World, id: string, a: nat, mf: Manifest)
      returns (es: seq<Event>, w: World)
    requires v == Run(w0, es0) && id in v.boots && v.boots[id] == CopyGen(a, mf, START) && At(v.vols, id) == map[]
    requires mf.gen in v.dirs && WellFormed(v.dirs[mf.gen])
    ensures w == Run(w0, es)
            && w == v.(vols := v.vols[id := EMPTY_DIR], boots := v.boots[id := CopyGen(a, mf, {Read([])})])
  {
    es, w := EnterRoot(w0, es0, v, id, a, mf);
    es, w := ListRoot(w0, es, w, id, a, mf);
    assert v.boots[id := CopyGen(a, mf, {List([])})][id := CopyGen(a, mf, {Read([])})] ==
        v.boots[id := CopyGen(a, mf, {Read([])})];
  }

  lemma EnterRoot(w0: World, es0: seq<Event>, v: World, id: string, a: nat, mf: Manifest)
      returns (es: seq<Event>, w: World)
    requires v == Run(w0, es0) && id in v.boots && v.boots[id] == CopyGen(a, mf, START) && At(v.vols, id) == map[]
    requires mf.gen in v.dirs && WellFormed(v.dirs[mf.gen])
    ensures w == Run(w0, es)
            && w == v.(vols := v.vols[id := EMPTY_DIR], boots := v.boots[id := CopyGen(a, mf, {List([])})])
  {
    assert [] in EMPTY_DIR;
    RootEntered(v.dirs[mf.gen], Held(v.dirs, mf.gen));
    es, w := BootOn(w0, es0, v, id, Enter([]), BootMove(CopyGen(a, mf, {List([])}), EMPTY_DIR, v.inUse));
  }

  lemma ListRoot(w0: World, es0: seq<Event>, v: World, id: string, a: nat, mf: Manifest)
      returns (es: seq<Event>, w: World)
    requires v == Run(w0, es0) && id in v.boots && v.boots[id] == CopyGen(a, mf, {List([])}) && id in v.vols
             && v.vols[id] == EMPTY_DIR
    requires mf.gen in v.dirs && WellFormed(v.dirs[mf.gen])
    ensures w == Run(w0, es) && w == v.(boots := v.boots[id := CopyGen(a, mf, {Read([])})])
  {
    assert [] in EMPTY_DIR;
    RootOpened(v.dirs[mf.gen], Held(v.dirs, mf.gen), EMPTY_DIR);
    es, w := BootOn(w0, es0, v, id, List([]), BootMove(CopyGen(a, mf, {Read([])}), EMPTY_DIR, v.inUse));
  }

  lemma RootEntered(src: Tree, held: Tree)
    requires WellFormed(src)
    ensures CopyStep(src, held, map[], START, Enter([])) == Copy(Going, EMPTY_DIR, {List([])})
  {
    assert WithAncestors(map[], []) == map[];
    assert START - {Enter([])} + {List([])} == {List([])};
  }

  lemma RootOpened(src: Tree, held: Tree, dst: Tree)
    requires WellFormed(src)
    ensures CopyStep(src, held, dst, {List([])}, List([])) == Copy(Going, dst, {Read([])})
  {
    assert {List([])} - {List([])} + {Read([])} == {Read([])};
  }

  lemma FreshKey<V>(m: map<nat, V>) returns (k: nat)
    ensures k !in m
  {
    k := Bound(m.Keys);
  }

  ghost function Bound(s: set<nat>): (b: nat)
    ensures forall k | k in s :: k < b
  {
    if s == {} then 0 else
      var k :| k in s;
      var b := Bound(s - {k});
      assert forall j | j in s :: j == k || j in s - {k};
      if k < b then b else k + 1
  }

  /** A second cleaner takes away what lies in the way of the rename. */
  lemma ClearTheWay(w0: World, es0: seq<Event>, v: World, g: string) returns (es: seq<Event>, w: World)
    requires v == Run(w0, es0) && IsGen(g)
    ensures w == Run(w0, es) && Trash(g) !in w.dirs
    ensures w == v.(dirs := v.dirs - {Trash(g)}, cleaners := w.cleaners)
    ensures forall k | k in v.cleaners :: k in w.cleaners && w.cleaners[k] == v.cleaners[k]
  {
    es, w := es0, v;
    if Trash(g) in v.dirs {
      var k := FreshKey(v.cleaners);
      es, w := RemoveTrash(w0, es0, v, g, k);
    } else {
      assert v.dirs - {Trash(g)} == v.dirs;
    }
  }

  lemma RemoveTrash(w0: World, es0: seq<Event>, v: World, g: string, k: nat) returns (es: seq<Event>, w: World)
    requires v == Run(w0, es0) && IsGen(g) && Trash(g) in v.dirs && k !in v.cleaners
    ensures w == Run(w0, es) && w == v.(dirs := v.dirs - {Trash(g)}, cleaners := w.cleaners)
    ensures forall j | j in v.cleaners :: j in w.cleaners && w.cleaners[j] == v.cleaners[j]
  {
    TrashIsApart(g);
    var current;
    es, w, current := ListAll(w0, es0, v, k);
    assert Trash(g) in w.cleaners[k].todo;
    es, w := DropListed(w0, es, w, k, Trash(g));
  }

  /** A listed piece of rubbish is removed where it lies. */
  lemma DropListed(w0: World, es0: seq<Event>, v: World, k: nat, name: string) returns (es: seq<Event>, w: World)
    requires v == Run(w0, es0) && k in v.cleaners && v.cleaners[k].Scan? && name in v.cleaners[k].todo && !IsGen(name)
    ensures w == Run(w0, es) && w == v.(dirs := v.dirs - {name}, cleaners := w.cleaners)
    ensures forall j | j in v.cleaners && j != k :: j in w.cleaners && w.cleaners[j] == v.cleaners[j]
  {
    es, w := CleanOn(w0, es0, v, k, name);
    es, w := CleanOn(w0, es, w, k, "");
  }

  /** One step of a cleaner that does not end its pass. */
  lemma CleanOn(w0: World, es0: seq<Event>, v: World, k: nat, name: string) returns (es: seq<Event>, w: World)
    requires v == Run(w0, es0) && k in v.cleaners
             && CleanNext(v.cleaners[k], v.manifest, v.dirs, v.inUse, name).pc.Some?
    ensures w == Run(w0, es)
    ensures var m := CleanNext(v.cleaners[k], v.manifest, v.dirs, v.inUse, name);
            w == v.(dirs := m.dirs, cleaners := v.cleaners[k := m.pc.value])
  {
    es, w := Then(w0, es0, v, CleanGo(k, name));
  }

  lemma ListAll(w0: World, es0: seq<Event>, v: World, k: nat) returns (es: seq<Event>, w: World, current: string)
    requires v == Run(w0, es0) && k !in v.cleaners
    ensures w == Run(w0, es)
    ensures w == v.(cleaners := v.cleaners[k := Scan(current, set n | n in v.dirs && (IsGen(n) || IsTrash(n)))])
    ensures current == if v.manifest.Some? then v.manifest.value.gen else ""
  {
    current := if v.manifest.Some? then v.manifest.value.gen else "";
    es, w := StartPass(w0, es0, v, k, current);
    es, w := CleanOn(w0, es, w, k, "");
    OneEntry(v.cleaners, k, ListDir(current), w.cleaners[k]);
  }

  lemma StartPass(w0: World, es0: seq<Event>, v: World, k: nat, current: string) returns (es: seq<Event>, w: World)
    requires v == Run(w0, es0) && k !in v.cleaners && current == if v.manifest.Some? then v.manifest.value.gen else ""
    ensures w == Run(w0, es) && w == v.(cleaners := v.cleaners[k := ListDir(current)])
  {
    es, w := Then(w0, es0, v, CleanBegin(k));
    es, w := CleanOn(w0, es, w, k, "");
    OneEntry(v.cleaners, k, ReadCurrent, ListDir(current));
  }

  lemma OneEntry<V>(m: map<nat, V>, k: nat, a: V, b: V)
    ensures m[k := a][k := b] == m[k := b]
  {
  }

  /** The cleaner renames the generation and deletes everything in it. */
  lemma TakeAway(w0: World, es0: seq<Event>, v: World, k: nat, g: string) returns (es: seq<Event>, w: World)
    requires v == Run(w0, es0) && CanRename(v.dirs, g) && k in v.cleaners && DecidedOn(v.cleaners[k], g)
             && WellFormed(v.dirs[g])
    ensures w == Run(w0, es) && w == v.(dirs := (v.dirs - {g})[Trash(g) := EMPTY_DIR], cleaners := w.cleaners)
  {
    es, w := CleanOn(w0, es0, v, k, "");
    es, w := Empty(w0, es, w, k, Trash(g));
  }

  lemma Empty(w0: World, es0: seq<Event>, v: World, k: nat, name: string) returns (es: seq<Event>, w: World)
    requires v == Run(w0, es0) && k in v.cleaners && v.cleaners[k].RemoveDir? && v.cleaners[k].name == name
    requires name in v.dirs && WellFormed(v.dirs[name])
    ensures w == Run(w0, es) && w == v.(dirs := v.dirs[name := EMPTY_DIR])
  {
    var gone := v.dirs[name].Keys - {[]};
    RootLeft(v.dirs, name, gone);
    UnlinkIs(v, k, gone);
    es, w := Then(w0, es0, v, CleanUnlink(k, gone));
  }

  lemma UnlinkIs(v: World, k: nat, gone: set<Rel>)
    requires k in v.cleaners && v.cleaners[k].RemoveDir?
    ensures Apply(v, CleanUnlink(k, gone)) == v.(dirs := Unlinked(v.dirs, v.cleaners[k].name, gone))
  {
  }

  lemma RootLeft(dirs: map<string, Tree>, name: string, gone: set<Rel>)
    requires name in dirs && WellFormed(dirs[name]) && gone == dirs[name].Keys - {[]}
    ensures Unlinked(dirs, name, gone) == dirs[name := EMPTY_DIR]
  {
    assert [] in EMPTY_DIR;
    assert dirs[name] - gone == EMPTY_DIR;
  }

  /** The boot reads what it had opened, finds it empty, and is done. */
  lemma ReadEmpty(w0: World, es0: seq<Event>, v: World, id: string, a: nat, mf: Manifest)
      returns (es: seq<Event>, w: World)
    requires v == Run(w0, es0) && id in v.boots && v.boots[id] == CopyGen(a, mf, {Read([])})
             && At(v.vols, id) == EMPTY_DIR
    requires mf.gen !in v.dirs && Trash(mf.gen) in v.dirs && v.dirs[Trash(mf.gen)] == EMPTY_DIR
    ensures w == Run(w0, es) && id in w.boots && w.boots[id] == Booted(mf) && At(w.vols, id) == EMPTY_DIR
            && w.published == v.published
  {
    assert [] in EMPTY_DIR;
    ReadNothing(At(v.dirs, mf.gen));
    es, w := BootOn(w0, es0, v, id, Read([]), BootMove(CopyGen(a, mf, {}), EMPTY_DIR, v.inUse));
    es, w := BootOn(w0, es, w, id, Read([]), BootMove(UnmarkGen(a, mf, Going), EMPTY_DIR, v.inUse));
    es, w := BootOn(w0, es, w, id, Read([]), BootMove(Booted(mf), EMPTY_DIR, Unmarked(v.inUse, Gen(mf.gen))));
  }

  lemma ReadNothing(src: Tree)
    ensures CopyStep(src, EMPTY_DIR, EMPTY_DIR, {Read([])}, Read([])) == Copy(Going, EMPTY_DIR, {})
  {
    assert ChildTasks(EMPTY_DIR, []) == {};
    assert {Read([])} - {Read([])} + ChildTasks(EMPTY_DIR, []) == {};
  }

  lemma PartHappens(v: World, id: string, a: nat, mf: Manifest, k: nat) returns (es: seq<Event>)
    requires id in v.boots && v.boots[id] == CopyGen(a, mf, START) && At(v.vols, id) == map[]
    requires IsGen(mf.gen) && mf.gen in v.dirs && WellFormed(v.dirs[mf.gen])
    requires mf.gen in v.published && v.published[mf.gen] != EMPTY_DIR
    requires k in v.cleaners && DecidedOn(v.cleaners[k], mf.gen)
    ensures BootedInPart(Run(v, es), id, mf)
  {
    var w;
    es, w := OpenRoot(v, [], v, id, a, mf);
    es, w := ClearTheWay(v, es, w, mf.gen);
    TrashIsApart(mf.gen);
    es, w := TakeAway(v, es, w, k, mf.gen);
    es, w := ReadEmpty(v, es, w, id, a, mf);
  }

  lemma NothingYet(src: Tree, vol: Tree)
    requires CopyInv(src, vol, START)
    ensures vol == map[]
  {
    if q :| q in vol {
      OpenIsPart(src, vol, q);
    }
    assert TaskOk(src, vol, Enter([]));
  }

  ghost predicate CanEndInPart(w: World, id: string, mf: Manifest) {
    exists es :: BootedInPart(Run(w, es), id, mf)
  }

  lemma PartIff(w: World, id: string, a: nat, mf: Manifest)
    requires Inv(w) && id in w.boots && w.boots[id] == CopyGen(a, mf, START) && mf.gen in w.published
    ensures CanEndInPart(w, id, mf) <==>
            mf.gen in w.dirs && w.published[mf.gen] != EMPTY_DIR && Decided(w.cleaners, mf.gen)
  {
    if mf.gen in w.dirs && w.published[mf.gen] != EMPTY_DIR && Decided(w.cleaners, mf.gen) {
      var k :| k in w.cleaners && DecidedOn(w.cleaners[k], mf.gen);
      assert BootOk(FactsOf(w), w.dirs, At(w.vols, id), w.boots[id]);
      NothingYet(w.published[mf.gen], At(w.vols, id));
      var es := PartHappens(w, id, a, mf, k);
    }
    if CanEndInPart(w, id, mf) {
      var es :| BootedInPart(Run(w, es), id, mf);
      PartNeeds(w, es, id, a, mf);
    }
  }

  /** The exact condition, on the spot: a boot that has just marked its generation can end
      booted=true over a part of it if and only if the generation is still there, holds
      anything at all, and some cleaner has already decided to rename it. */
  lemma BootInPartIff(w0: World, es: seq<Event>, id: string, a: nat, mf: Manifest)
    requires Start(w0)
    requires var w := Run(w0, es); id in w.boots && w.boots[id] == CopyGen(a, mf, START)
    ensures var w := Run(w0, es);
            && mf.gen in w.published
            && (CanEndInPart(w, id, mf) <==>
                  mf.gen in w.dirs && w.published[mf.gen] != EMPTY_DIR && Decided(w.cleaners, mf.gen))
  {
    StartKeeps(w0);
    RunKeeps(w0, es);
    var w := Run(w0, es);
    assert BootOk(FactsOf(w), w.dirs, At(w.vols, id), w.boots[id]);
    PartIff(w, id, a, mf);
  }

  lemma PartNeeds(w: World, es: seq<Event>, id: string, a: nat, mf: Manifest)
    requires Inv(w) && id in w.boots && w.boots[id] == CopyGen(a, mf, START) && mf.gen in w.published
    requires BootedInPart(Run(w, es), id, mf)
    ensures mf.gen in w.dirs && w.published[mf.gen] != EMPTY_DIR && Decided(w.cleaners, mf.gen)
  {
    if w.published[mf.gen] == EMPTY_DIR {
      EmptyHasNoParts(w, es, id, mf);
    } else if !(mf.gen in w.dirs && Decided(w.cleaners, mf.gen)) {
      assert Safe(w, id, mf);
      SafeForever(w, es, id, mf);
    }
  }
}
