/** How often a boot tries, and what makes it give up: a copy whose generation vanishes is
    tried again on the manifest as it is then, three times in all. */
module WarmRetry {
  import opened Prelude
  import opened WarmTree
  import opened WarmCache
  import opened WarmSafety
  import opened WarmTheorems
  import opened WarmPartial
  import opened WarmRaces

  /** This step finds that the generation being copied is gone. */
  predicate Loses(w: World, e: Event, id: string) {
    && id in w.boots && w.boots[id].CopyGen?
    && var w' := Apply(w, e); id in w'.boots && w'.boots[id].UnmarkGen? && w'.boots[id].outcome == Vanished
  }

  /** How many copies a boot has lost so far. */
  function Vanishings(w: World, es: seq<Event>, id: string): nat
    decreases |es|
  {
    if es == [] then 0
    else
      var before := es[..|es| - 1];
      Vanishings(w, before, id) + if Loses(Run(w, before), es[|es| - 1], id) then 1 else 0
  }

  lemma LastEvent(w: World, es: seq<Event>)
    requires es != []
    ensures Run(w, es) == Apply(Run(w, es[..|es| - 1]), es[|es| - 1])
  {
    var before := es[..|es| - 1];
    assert es == before + [es[|es| - 1]];
    RunSnoc(w, before, es[|es| - 1]);
  }

  // ----- The count decides -----

  /** Where a boot stands after losing `n` copies. */
  predicate Counted(pc: BootPc, n: nat) {
    match pc
    case ReadManifest(a) => n == a <= 3
    case MarkGen(a, _) => n == a < 3
    case CopyGen(a, _, _) => n == a < 3
    case UnmarkGen(a, _, o) => a < 3 && n == a + if o == Vanished then 1 else 0
    case ClearVol(a, o) => a < 3 && o == Vanished && n == a + 1
    case MakeEmpty => n <= 3
    case Booted(_) => n < 3
    case Cold => n <= 3
    case BootFailed => n < 3
  }

  lemma CountedNext(f: Facts, manifest: Option<Manifest>, dirs: map<string, Tree>, vol: Tree, inUse: map<Mark, nat>,
      pc: BootPc, t: Task, n: nat)
    requires BootOk(f, dirs, vol, pc) && Counted(pc, n)
    ensures var pc' := BootNext(pc, manifest, dirs, vol, inUse, t).pc;
            Counted(pc', n + if pc.CopyGen? && pc'.UnmarkGen? && pc'.outcome == Vanished then 1 else 0)
  {
  }

  lemma CountedStep(w: World, e: Event, id: string, n: nat)
    requires Inv(w) && id in Apply(w, e).boots
    requires if id in w.boots then Counted(w.boots[id], n) else n == 0
    ensures Counted(Apply(w, e).boots[id], n + if Loses(w, e, id) then 1 else 0)
  {
    if id !in w.boots {
      BootNew(w, e, id);
    } else if e.BootGo? && e.id == id {
      CountedOwnStep(w, id, e.task, n);
    } else {
      BootUntouched(w, e, id);
    }
  }

  lemma CountedOwnStep(w: World, id: string, t: Task, n: nat)
    requires Inv(w) && id in w.boots && Counted(w.boots[id], n)
    ensures id in Apply(w, BootGo(id, t)).boots
    ensures Counted(Apply(w, BootGo(id, t)).boots[id], n + if Loses(w, BootGo(id, t), id) then 1 else 0)
  {
    assert BootOk(FactsOf(w), w.dirs, At(w.vols, id), w.boots[id]);
    CountedNext(FactsOf(w), w.manifest, w.dirs, At(w.vols, id), w.inUse, w.boots[id], t, n);
    OwnPc(w, id, t);
  }

  lemma OwnPc(w: World, id: string, t: Task)
    requires id in w.boots
    ensures id in Apply(w, BootGo(id, t)).boots
    ensures Apply(w, BootGo(id, t)).boots[id] ==
            BootNext(w.boots[id], w.manifest, w.dirs, At(w.vols, id), w.inUse, t).pc
  {
  }

  lemma {:induction false} NothingLost(w0: World, es: seq<Event>, id: string)
    requires Start(w0) && id !in Run(w0, es).ids
    ensures Vanishings(w0, es, id) == 0
    decreases |es|
  {
    if es != [] {
      LastEvent(w0, es);
      var w := Run(w0, es[..|es| - 1]);
      IdsGrow(w, es[|es| - 1]);
      NothingLost(w0, es[..|es| - 1], id);
      Holds(w0, es[..|es| - 1]);
    }
  }

  lemma Holds(w0: World, es: seq<Event>)
    requires Start(w0)
    ensures Inv(Run(w0, es))
  {
    StartKeeps(w0);
    RunKeeps(w0, es);
  }

  lemma IdsGrow(w: World, e: Event)
    ensures w.ids <= Apply(w, e).ids
    ensures forall id | id in Apply(w, e).boots && id !in w.boots :: id !in w.ids
  {
  }

  lemma {:induction false} AlwaysCounted(w0: World, es: seq<Event>, id: string)
    requires Start(w0) && id in Run(w0, es).boots
    ensures Counted(Run(w0, es).boots[id], Vanishings(w0, es, id))
    decreases |es|
  {
    if es != [] {
      var before, e := es[..|es| - 1], es[|es| - 1];
      var w := Run(w0, before);
      LastEvent(w0, es);
      Holds(w0, before);
      if id in w.boots {
        AlwaysCounted(w0, before, id);
      } else {
        IdsGrow(w, e);
        NothingLost(w0, before, id);
      }
      CountedStep(w, e, id, Vanishings(w0, before, id));
    }
  }

  /** At most three copies are lost, and a boot that lost three does not end booted. */
  lemma ThreeTries(w0: World, es: seq<Event>, id: string)
    requires Start(w0) && id in Run(w0, es).boots
    ensures Vanishings(w0, es, id) <= 3
    ensures Vanishings(w0, es, id) == 3 ==> !Run(w0, es).boots[id].Booted? && !Run(w0, es).boots[id].BootFailed?
  {
    AlwaysCounted(w0, es, id);
  }

  /** What one reading of the manifest decides: give up when there is none or three copies
      are lost, fail when it is corrupt, and otherwise try the generation it names. */
  lemma ReadingDecides(w0: World, es: seq<Event>, id: string, t: Task)
    requires Start(w0) && id in Run(w0, es).boots && Run(w0, es).boots[id].ReadManifest?
    ensures var w := Run(w0, es);
            var n := Vanishings(w0, es, id);
            && id in Apply(w, BootGo(id, t)).boots
            && Apply(w, BootGo(id, t)).boots[id] ==
               if n == 3 || w.manifest == None then MakeEmpty
               else if w.manifest.value.repo == "" || !IsGen(w.manifest.value.gen) then BootFailed
               else MarkGen(n, w.manifest.value)
  {
    AlwaysCounted(w0, es, id);
    OwnPc(Run(w0, es), id, t);
  }

  // ----- Giving up -----

  /** The k-th event is this boot's reading, and finds no manifest or comes after three
      lost copies. */
  ghost predicate GivesUpAt(w0: World, es: seq<Event>, id: string, k: nat) {
    && k < |es| && es[k].BootGo? && es[k].id == id
    && var w := Run(w0, es[..k]);
       && id in w.boots && w.boots[id].ReadManifest?
       && (w.manifest == None || Vanishings(w0, es[..k], id) == 3)
  }

  predicate GivenUp(pc: BootPc) {
    pc.MakeEmpty? || pc.Cold?
  }

  lemma EarlierEvents(w0: World, es: seq<Event>, id: string, k: nat)
    requires k < |es| - 1
    ensures GivesUpAt(w0, es, id, k) <==> GivesUpAt(w0, es[..|es| - 1], id, k)
  {
    assert es[..|es| - 1][..k] == es[..k];
  }

  lemma GivesUpOnce(manifest: Option<Manifest>, dirs: map<string, Tree>, vol: Tree, inUse: map<Mark, nat>, pc: BootPc,
      t: Task)
    ensures var pc' := BootNext(pc, manifest, dirs, vol, inUse, t).pc;
            && (GivenUp(pc) ==> GivenUp(pc'))
            && (GivenUp(pc') ==> GivenUp(pc) || pc.ReadManifest?)
  {
  }

  /** A boot begins to give up at one of its own readings, and goes through with it. */
  lemma GivenUpStep(w: World, e: Event, id: string)
    requires Inv(w) && id in w.boots && id in Apply(w, e).boots
    ensures GivenUp(w.boots[id]) ==> GivenUp(Apply(w, e).boots[id])
    ensures GivenUp(Apply(w, e).boots[id]) ==>
            GivenUp(w.boots[id]) || (e.BootGo? && e.id == id && w.boots[id].ReadManifest?)
  {
    if e.BootGo? && e.id == id {
      OwnPc(w, id, e.task);
      GivesUpOnce(w.manifest, w.dirs, At(w.vols, id), w.inUse, w.boots[id], e.task);
    } else {
      BootUntouched(w, e, id);
    }
  }

  lemma {:induction false} WhyGivenUp(w0: World, es: seq<Event>, id: string) returns (k: nat)
    requires Start(w0) && id in Run(w0, es).boots && GivenUp(Run(w0, es).boots[id])
    ensures GivesUpAt(w0, es, id, k)
    decreases |es|
  {
    var before, e := es[..|es| - 1], es[|es| - 1];
    var w := Run(w0, before);
    LastEvent(w0, es);
    Holds(w0, before);
    if id !in w.boots {
      BootNew(w, e, id);
      assert false;
    }
    GivenUpStep(w, e, id);
    if GivenUp(w.boots[id]) {
      k := WhyGivenUp(w0, before, id);
      EarlierEvents(w0, es, id, k);
    } else {
      k := |es| - 1;
      ReadingDecides(w0, before, id, e.task);
    }
  }

  lemma {:induction false} GivenUpForGood(w0: World, es: seq<Event>, id: string, k: nat)
    requires Start(w0) && GivesUpAt(w0, es, id, k)
    ensures id in Run(w0, es).ids
    ensures id in Run(w0, es).boots ==> GivenUp(Run(w0, es).boots[id])
    decreases |es|
  {
    var before, e := es[..|es| - 1], es[|es| - 1];
    var w := Run(w0, before);
    LastEvent(w0, es);
    Holds(w0, before);
    IdsGrow(w, e);
    if k == |es| - 1 {
      ReadingDecides(w0, before, id, e.task);
    } else {
      EarlierEvents(w0, es, id, k);
      GivenUpForGood(w0, before, id, k);
      if id in w.boots && id in Apply(w, e).boots {
        GivenUpStep(w, e, id);
      }
    }
  }

  /** A boot goes cold exactly when one of its readings found no manifest, or came after
      three lost copies. */
  lemma ColdIff(w0: World, es: seq<Event>, id: string)
    requires Start(w0) && id in Run(w0, es).boots
    ensures GivenUp(Run(w0, es).boots[id]) <==> exists k :: GivesUpAt(w0, es, id, k)
  {
    if GivenUp(Run(w0, es).boots[id]) {
      var k := WhyGivenUp(w0, es, id);
    }
    if k :| GivesUpAt(w0, es, id, k) {
      GivenUpForGood(w0, es, id, k);
    }
  }

  // ----- Trying again -----

  /** Steps of this boot alone. */
  predicate Own(es: seq<Event>, id: string) {
    forall e | e in es :: e.BootGo? && e.id == id
  }

  /** One more step of the boot, while nothing else moves. */
  lemma OwnOn(v0: World, es0: seq<Event>, v: World, id: string, t: Task, m: BootMove)
      returns (es: seq<Event>, w: World)
    requires v == Run(v0, es0) && Own(es0, id) && Inv(v) && id in v.boots
             && m == BootNext(v.boots[id], v.manifest, v.dirs, At(v.vols, id), v.inUse, t)
    ensures w == Run(v0, es) && Own(es, id) && Inv(w)
    ensures w == v.(vols := w.vols, inUse := w.inUse, boots := w.boots)
    ensures id in w.boots && w.boots[id] == m.pc && At(w.vols, id) == m.vol
  {
    es, w := Then(v0, es0, v, BootGo(id, t));
    ApplyKeeps(v, BootGo(id, t));
    AtStore(v.vols, id, m.vol);
  }

  lemma OwnCopy(v0: World, es0: seq<Event>, v: World, id: string, a: nat, mf: Manifest, src: Tree, todo: set<Task>)
      returns (es: seq<Event>, w: World, todo': set<Task>)
    requires v == Run(v0, es0) && Own(es0, id) && Inv(v) && id in v.boots && v.boots[id] == CopyGen(a, mf, todo)
    requires mf.gen in v.dirs && v.dirs[mf.gen] == src && CopyInv(src, At(v.vols, id), todo) && todo != {}
    ensures w == Run(v0, es) && Own(es, id) && Inv(w)
    ensures w == v.(vols := w.vols, inUse := w.inUse, boots := w.boots)
    ensures id in w.boots && w.boots[id] == CopyGen(a, mf, todo') && CopyInv(src, At(w.vols, id), todo')
    ensures Shrinks(src, At(v.vols, id), todo, At(w.vols, id), todo')
  {
    var t, vol';
    t, vol', todo' := NextCopy(src, At(v.vols, id), todo);
    var m := BootMove(CopyGen(a, mf, todo'), vol', v.inUse);
    OwnCopyMoves(v.manifest, v.dirs, At(v.vols, id), v.inUse, a, mf, todo, t, vol', todo');
    es, w := OwnOn(v0, es0, v, id, t, m);
  }

  lemma OwnCopyMoves(manifest: Option<Manifest>, dirs: map<string, Tree>, vol: Tree, inUse: map<Mark, nat>, a: nat,
      mf: Manifest, todo: set<Task>, t: Task, vol': Tree, todo': set<Task>)
    requires mf.gen in dirs && Ready(todo, t)
    requires CopyStep(dirs[mf.gen], dirs[mf.gen], vol, todo, t) == Copy(Going, vol', todo')
    ensures BootNext(CopyGen(a, mf, todo), manifest, dirs, vol, inUse, t)
            == BootMove(CopyGen(a, mf, todo'), vol', inUse)
  {
  }

  lemma OwnCopies(v0: World, es0: seq<Event>, v: World, id: string, a: nat, mf: Manifest, src: Tree, todo: set<Task>)
      returns (es: seq<Event>, w: World)
    requires v == Run(v0, es0) && Own(es0, id) && Inv(v) && id in v.boots && v.boots[id] == CopyGen(a, mf, todo)
    requires mf.gen in v.dirs && v.dirs[mf.gen] == src && CopyInv(src, At(v.vols, id), todo)
    ensures w == Run(v0, es) && Own(es, id) && Inv(w)
    ensures w == v.(vols := w.vols, inUse := w.inUse, boots := w.boots)
    ensures id in w.boots && w.boots[id] == UnmarkGen(a, mf, Going) && At(w.vols, id) == src
    decreases |Unmet(src, At(v.vols, id), todo)|, |src.Keys - At(v.vols, id).Keys|, |Unopened(todo)|, |todo|
  {
    if todo == {} {
      CopyEnds(src, At(v.vols, id));
      es, w := OwnOn(v0, es0, v, id, Enter([]), BootMove(UnmarkGen(a, mf, Going), src, v.inUse));
    } else {
      var todo';
      es, w, todo' := OwnCopy(v0, es0, v, id, a, mf, src, todo);
      es, w := OwnCopies(v0, es, w, id, a, mf, src, todo');
    }
  }

  /** What the next try needs: a manifest some commit wrote, and its generation. */
  predicate Bootable(manifest: Option<Manifest>, dirs: map<string, Tree>) {
    manifest.Some? && manifest.value.repo != "" && IsGen(manifest.value.gen) && manifest.value.gen in dirs
  }

  /** From a reading to the end. */
  lemma OwnTry(v0: World, es0: seq<Event>, v: World, id: string, a: nat) returns (es: seq<Event>, w: World)
    requires v == Run(v0, es0) && Own(es0, id) && Inv(v) && id in v.boots && v.boots[id] == ReadManifest(a) && a < 3
    requires Bootable(v.manifest, v.dirs)
    ensures w == Run(v0, es) && Own(es, id) && w == v.(vols := w.vols, inUse := w.inUse, boots := w.boots)
    ensures id in w.boots && w.boots[id] == Booted(v.manifest.value)
            && At(w.vols, id) == v.dirs[v.manifest.value.gen]
  {
    var mf := v.manifest.value;
    WholeThere(v, id, mf);
    es, w := OwnOn(v0, es0, v, id, Enter([]), BootMove(MarkGen(a, mf), map[], v.inUse));
    es, w := OwnOn(v0, es, w, id, Enter([]), BootMove(CopyGen(a, mf, START), map[], Marked(w.inUse, Gen(mf.gen))));
    es, w := OwnRest(v0, es, w, id, a, mf);
  }

  lemma WholeThere(v: World, id: string, mf: Manifest)
    requires Inv(v) && id in v.boots && v.boots[id].ReadManifest? && v.manifest == Some(mf)
             && Bootable(v.manifest, v.dirs)
    ensures At(v.vols, id) == map[] && WellFormed(v.dirs[mf.gen])
  {
    assert BootOk(FactsOf(v), v.dirs, At(v.vols, id), v.boots[id]);
    assert v.published[mf.gen] == v.dirs[mf.gen];
  }

  lemma OwnRest(v0: World, es0: seq<Event>, v: World, id: string, a: nat, mf: Manifest)
      returns (es: seq<Event>, w: World)
    requires v == Run(v0, es0) && Own(es0, id) && Inv(v) && id in v.boots && v.boots[id] == CopyGen(a, mf, START)
    requires mf.gen in v.dirs && WellFormed(v.dirs[mf.gen]) && At(v.vols, id) == map[]
    ensures w == Run(v0, es) && Own(es, id) && w == v.(vols := w.vols, inUse := w.inUse, boots := w.boots)
    ensures id in w.boots && w.boots[id] == Booted(mf) && At(w.vols, id) == v.dirs[mf.gen]
  {
    var src := v.dirs[mf.gen];
    CopyStarts(src);
    es, w := OwnCopies(v0, es0, v, id, a, mf, src, START);
    es, w := OwnOn(v0, es, w, id, Enter([]), BootMove(Booted(mf), src, Unmarked(w.inUse, Gen(mf.gen))));
  }

  /** Between two tries, or before the first. */
  predicate Between(pc: BootPc) {
    pc.ReadManifest? || (pc.ClearVol? && pc.outcome == Vanished)
  }

  /** The next try's reading is at most one step away. */
  lemma ToReading(v: World, id: string, n: nat) returns (es: seq<Event>, w: World)
    requires Inv(v) && id in v.boots && Between(v.boots[id]) && Counted(v.boots[id], n)
    ensures w == Run(v, es) && Own(es, id) && Inv(w) && w == v.(vols := w.vols, inUse := w.inUse, boots := w.boots)
    ensures id in w.boots && w.boots[id] == ReadManifest(n) && At(w.vols, id) == map[]
  {
    es, w := [], v;
    if v.boots[id].ClearVol? {
      es, w := OwnOn(v, [], v, id, Enter([]), BootMove(ReadManifest(n), map[], v.inUse));
    } else {
      assert BootOk(FactsOf(v), v.dirs, At(v.vols, id), v.boots[id]);
    }
  }

  /** A boot that lost fewer than three copies tries again: left alone with a manifest whose
      generation is there, it ends booted with all of it. */
  lemma TriesAgain(w0: World, es: seq<Event>, id: string) returns (more: seq<Event>)
    requires Start(w0) && id in Run(w0, es).boots && Between(Run(w0, es).boots[id])
    requires Vanishings(w0, es, id) < 3 && Bootable(Run(w0, es).manifest, Run(w0, es).dirs)
    ensures Own(more, id)
    ensures var w := Run(w0, es);
            var w' := Run(w, more);
            && id in w'.boots && w'.boots[id] == Booted(w.manifest.value)
            && At(w'.vols, id) == w.dirs[w.manifest.value.gen]
            && w' == w.(vols := w'.vols, inUse := w'.inUse, boots := w'.boots)
  {
    Holds(w0, es);
    AlwaysCounted(w0, es, id);
    more := TriesFrom(Run(w0, es), id, Vanishings(w0, es, id));
  }

  lemma TriesFrom(v: World, id: string, n: nat) returns (es: seq<Event>)
    requires Inv(v) && id in v.boots && Between(v.boots[id]) && Counted(v.boots[id], n) && n < 3
    requires Bootable(v.manifest, v.dirs)
    ensures var w := Run(v, es);
            && Own(es, id) && w == v.(vols := w.vols, inUse := w.inUse, boots := w.boots)
            && id in w.boots && w.boots[id] == Booted(v.manifest.value)
            && At(w.vols, id) == v.dirs[v.manifest.value.gen]
  {
    var w;
    es, w := ToReading(v, id, n);
    es, w := OwnTry(v, es, w, id, n);
  }

  /** A boot that lost three goes cold, whatever the manifest: an empty volume. */
  lemma StopsTrying(w0: World, es: seq<Event>, id: string) returns (more: seq<Event>)
    requires Start(w0) && id in Run(w0, es).boots && Between(Run(w0, es).boots[id]) && Vanishings(w0, es, id) == 3
    ensures Own(more, id)
    ensures var w' := Run(Run(w0, es), more); id in w'.boots && w'.boots[id] == Cold && At(w'.vols, id) == EMPTY_DIR
  {
    Holds(w0, es);
    AlwaysCounted(w0, es, id);
    var v := Run(w0, es);
    var w;
    more, w := ToReading(v, id, 3);
    more := GoesCold(v, more, w, id);
  }

  lemma GoesCold(v0: World, es0: seq<Event>, v: World, id: string) returns (es: seq<Event>)
    requires v == Run(v0, es0) && Own(es0, id) && Inv(v) && id in v.boots && v.boots[id] == ReadManifest(3)
             && At(v.vols, id) == map[]
    ensures Own(es, id)
    ensures var w := Run(v0, es); id in w.boots && w.boots[id] == Cold && At(w.vols, id) == EMPTY_DIR
  {
    var w;
    es, w := OwnOn(v0, es0, v, id, Enter([]), BootMove(MakeEmpty, map[], v.inUse));
    es, w := OwnOn(v0, es, w, id, Enter([]), BootMove(Cold, EMPTY_DIR, w.inUse));
  }

  // ----- Nothing else comes of it -----

  /** On the way to booting `mf`. */
  predicate OnTheWay(pc: BootPc, mf: Manifest) {
    match pc
    case ReadManifest(a) => a < 3
    case MarkGen(_, m) => m == mf
    case CopyGen(_, m, _) => m == mf
    case UnmarkGen(_, m, o) => m == mf && o == Going
    case ClearVol(a, o) => a < 2 && o == Vanished
    case Booted(m) => m == mf
    case _ => false
  }

  lemma OnTheWayNext(f: Facts, manifest: Option<Manifest>, dirs: map<string, Tree>, vol: Tree, inUse: map<Mark, nat>,
      pc: BootPc, t: Task)
    requires WholeOrGone(f.published, dirs) && BootOk(f, dirs, vol, pc) && Bootable(manifest, dirs)
    requires OnTheWay(pc, manifest.value)
    ensures OnTheWay(BootNext(pc, manifest, dirs, vol, inUse, t).pc, manifest.value)
  {
    if pc.CopyGen? {
      SafeCopy(f, manifest, dirs, vol, inUse, pc, t);
    }
  }

  lemma OwnStepOnTheWay(w: World, id: string, t: Task)
    requires Inv(w) && id in w.boots && Bootable(w.manifest, w.dirs) && OnTheWay(w.boots[id], w.manifest.value)
    ensures var w' := Apply(w, BootGo(id, t));
            && Inv(w') && w' == w.(vols := w'.vols, inUse := w'.inUse, boots := w'.boots)
            && id in w'.boots && OnTheWay(w'.boots[id], w.manifest.value)
  {
    ApplyKeeps(w, BootGo(id, t));
    assert BootOk(FactsOf(w), w.dirs, At(w.vols, id), w.boots[id]);
    OnTheWayNext(FactsOf(w), w.manifest, w.dirs, At(w.vols, id), w.inUse, w.boots[id], t);
    OwnPc(w, id, t);
  }

  lemma {:induction false} OwnStaysOnTheWay(w: World, more: seq<Event>, id: string)
    requires Inv(w) && id in w.boots && Bootable(w.manifest, w.dirs) && OnTheWay(w.boots[id], w.manifest.value)
    requires Own(more, id)
    ensures var w' := Run(w, more);
            && Inv(w') && w' == w.(vols := w'.vols, inUse := w'.inUse, boots := w'.boots)
            && id in w'.boots && OnTheWay(w'.boots[id], w.manifest.value)
    decreases |more|
  {
    if more != [] {
      assert more[0] in more;
      OwnStepOnTheWay(w, id, more[0].task);
      OwnStaysOnTheWay(Apply(w, more[0]), more[1..], id);
    }
  }

  /** However such a boot goes on alone, in whatever order it copies: it never goes cold,
      never fails, and boots nothing but that manifest's generation, whole. */
  lemma TriesNothingElse(w0: World, es: seq<Event>, id: string, more: seq<Event>)
    requires Start(w0) && id in Run(w0, es).boots && Between(Run(w0, es).boots[id])
    requires Vanishings(w0, es, id) < 3 && Bootable(Run(w0, es).manifest, Run(w0, es).dirs) && Own(more, id)
    ensures var w := Run(w0, es);
            var w' := Run(w, more);
            && id in w'.boots && !GivenUp(w'.boots[id]) && !w'.boots[id].BootFailed?
            && (w'.boots[id].Booted? ==>
                  && w'.boots[id].mf == w.manifest.value
                  && At(w'.vols, id) == w.dirs[w.manifest.value.gen])
  {
    Holds(w0, es);
    AlwaysCounted(w0, es, id);
    OwnRunOnly(Run(w0, es), id, more);
  }

  lemma OwnRunOnly(w: World, id: string, more: seq<Event>)
    requires Inv(w) && id in w.boots && Bootable(w.manifest, w.dirs) && OnTheWay(w.boots[id], w.manifest.value)
    requires Own(more, id)
    ensures var w' := Run(w, more);
            && id in w'.boots && OnTheWay(w'.boots[id], w.manifest.value)
            && (w'.boots[id].Booted? ==> At(w'.vols, id) == w.dirs[w.manifest.value.gen])
  {
    OwnStaysOnTheWay(w, more, id);
    WholeIfThere(Run(w, more), id);
  }

  lemma WholeIfThere(w: World, id: string)
    requires Inv(w) && id in w.boots
    ensures w.boots[id].Booted? && w.boots[id].mf.gen in w.dirs ==> At(w.vols, id) == w.dirs[w.boots[id].mf.gen]
  {
    assert BootOk(FactsOf(w), w.dirs, At(w.vols, id), w.boots[id]);
  }
}
