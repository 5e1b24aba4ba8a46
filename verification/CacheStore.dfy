/** The warm cache's store, changed in place: one thread running alone through whole
    operations, over one repository's directory and the runs' volumes. */
module CacheStore {
  import opened Prelude
  import opened WarmTree
  import opened WarmCache

  /** What a finished pass of cleanGenerations leaves in a directory: everything that is
      no generation, the current one and those in use; of the others only such as could
      not be renamed because rubbish of the same name lay in the way. */
  ghost predicate Cleaned(before: map<string, Tree>, after: map<string, Tree>, current: string, inUse: map<Mark, nat>) {
    && (forall n | n in after :: n in before && after[n] == before[n])
    && (forall n | n in before && Spared(n, current, inUse) :: n in after)
    && (forall n | n in after :: Spared(n, current, inUse) || (IsGen(n) && Trash(n) in before))
  }

  predicate Spared(name: string, current: string, inUse: map<Mark, nat>) {
    if IsGen(name) then name == current || Uses(inUse, Gen(name)) > 0 else !IsTrash(name)
  }

  /** Half-way through a pass: `todo` is what the listing still holds. */
  ghost predicate Cleaning(before: map<string, Tree>, dirs: map<string, Tree>, todo: set<string>, current: string,
      inUse: map<Mark, nat>) {
    && (forall n | n in dirs :: n in before && dirs[n] == before[n])
    && (forall n | n in before && (Spared(n, current, inUse) || (IsGen(n) && n in todo)) :: n in dirs)
    && (forall n | n in todo :: IsGen(n) || IsTrash(n))
    && (forall n | n in dirs && n !in todo :: Spared(n, current, inUse) || (IsGen(n) && Trash(n) in before))
  }

  /** One entry renamed away and removed, or removed where it lies. */
  lemma OneGone(before: map<string, Tree>, dirs: map<string, Tree>, todo: set<string>, current: string,
      inUse: map<Mark, nat>, name: string)
    requires Cleaning(before, dirs, todo, current, inUse) && name in todo && !Spared(name, current, inUse)
    ensures Cleaning(before, dirs - {name}, todo - {name}, current, inUse)
    ensures IsGen(name) ==> Cleaning(before, dirs - {name} - {Trash(name)}, todo - {name}, current, inUse)
  {
    if IsGen(name) {
      TrashIsApart(name);
    }
  }

  /** Marks come off as they went on. */
  lemma MarkUnmark(inUse: map<Mark, nat>, m: Mark)
    requires m in inUse ==> inUse[m] > 0
    ensures Unmarked(Marked(inUse, m), m) == inUse
  {
    assert Unmarked(Marked(inUse, m), m).Keys == inUse.Keys;
  }

  ghost predicate ValidDirs(dirs: map<string, Tree>) {
    forall n | n in dirs && IsGen(n) :: WellFormed(dirs[n])
  }

  // ----- Tries of a boot -----

  /** A repository as one try finds it. */
  datatype Sight = Sight(manifest: Option<Manifest>, dirs: map<string, Tree>)

  /** The first `n` tries found a manifest, but not the generation it names. */
  ghost predicate Lost(sights: seq<Sight>, n: nat) {
    && n <= |sights|
    && forall k | 0 <= k < n ::
         sights[k].manifest.Some? && sights[k].manifest.value.repo != "" && IsGen(sights[k].manifest.value.gen)
         && sights[k].manifest.value.gen !in sights[k].dirs
  }

  /** What comes of the try after `n` lost ones: an error on a corrupt manifest, else the
      whole generation, and an empty volume when there is no manifest or no further try. */
  ghost predicate EndsAt(sights: seq<Sight>, n: nat, r: Result<Option<Manifest>, ()>, before: map<string, Tree>,
      after: map<string, Tree>, id: string) {
    if n >= |sights| || sights[n].manifest.None? then r == Ok(None) && after == before[id := EMPTY_DIR]
    else
      var mf := sights[n].manifest.value;
      if mf.repo == "" || !IsGen(mf.gen) then r == Err(()) && after == before
      else mf.gen in sights[n].dirs && r == Ok(Some(mf)) && after == before[id := sights[n].dirs[mf.gen]]
  }

  /** Only one try can be the one that decides. */
  lemma OneEnd(sights: seq<Sight>, m: nat, n: nat, r: Result<Option<Manifest>, ()>, s: Result<Option<Manifest>, ()>,
      before: map<string, Tree>, after: map<string, Tree>, after': map<string, Tree>, id: string)
    requires Lost(sights, m) && EndsAt(sights, m, r, before, after, id)
    requires Lost(sights, n) && EndsAt(sights, n, s, before, after', id)
    ensures m == n && r == s && after == after'
  {
  }

  class Store {
    const repo: string
    const hash: HashFn
    var inUse: map<Mark, nat>
    var manifest: Option<Manifest>
    var dirs: map<string, Tree>
    var vols: map<string, Tree>

    constructor (repo: string, hash: HashFn)
      ensures this.repo == repo && this.hash == hash && inUse == map[] && manifest == None && dirs == map[]
              && vols == map[]
    {
      this.repo, this.hash := repo, hash;
      inUse, manifest, dirs, vols := map[], None, map[], map[];
    }

    ghost predicate Valid()
      reads this
    {
      && ValidDirs(dirs)
      && (forall id | id in vols :: WellFormed(vols[id]))
      && (forall m | m in inUse :: inUse[m] > 0)
    }

    method MarkInUse(m: Mark)
      modifies this`inUse
      ensures forall n :: Uses(inUse, n) == Uses(old(inUse), n) + if n == m then 1 else 0
      ensures inUse == Marked(old(inUse), m) && inUse.Keys == old(inUse).Keys + {m}
    {
      inUse := inUse[m := (if m in inUse then inUse[m] else 0) + 1];
    }

    method Unmark(m: Mark)
      modifies this`inUse
      ensures forall n :: Uses(inUse, n) == Uses(old(inUse), n) - if n == m && Uses(old(inUse), n) > 0 then 1 else 0
      ensures inUse == Unmarked(old(inUse), m)
      ensures inUse.Keys == if Uses(old(inUse), m) <= 1 then old(inUse).Keys - {m} else old(inUse).Keys
    {
      if m !in inUse || inUse[m] <= 1 {
        inUse := inUse - {m};
      } else {
        inUse := inUse[m := inUse[m] - 1];
      }
    }

    method Busy(m: Mark) returns (b: bool)
      ensures b <==> Uses(inUse, m) > 0
    {
      b := m in inUse && inUse[m] > 0;
    }

    method Release(id: string)
      modifies this`vols
      ensures vols == if Uses(inUse, Vol(id)) > 0 then old(vols) else old(vols) - {id}
    {
      var busy := Busy(Vol(id));
      if busy {
        return;
      }
      vols := vols - {id};
    }

    /** A boot that finds the repository as `sights` says at its three tries; others may
        change it in between.  It ends at the first try that does not lose its generation,
        and after three lost ones with nothing. */
    method Boot(id: string, sights: seq<Sight>) returns (r: Result<Option<Manifest>, ()>)
      requires Valid() && id !in vols && |sights| == 3 && sights[0] == Sight(manifest, dirs)
      requires forall s | s in sights :: ValidDirs(s.dirs)
      modifies this
      ensures Valid() && inUse == old(inUse) && Sight(manifest, dirs) in sights
      ensures exists n :: 0 <= n <= 3 && Lost(sights, n) && EndsAt(sights, n, r, old(vols), vols, id)
    {
      var attempt := 0;
      while attempt < 3
        invariant vols == old(vols) && inUse == old(inUse) && Valid() && Sight(manifest, dirs) in sights
        invariant attempt <= 3 && Lost(sights, attempt)
      {
        manifest, dirs := sights[attempt].manifest, sights[attempt].dirs;
        assert Sight(manifest, dirs) == sights[attempt];
        if manifest.None? {
          break;
        }
        var mf := manifest.value;
        if mf.repo == "" || !IsGen(mf.gen) {
          return Err(());
        }
        var copied := CopyGeneration(id, mf.gen);
        if copied {
          return Ok(Some(mf));
        }
        attempt := attempt + 1;
      }
      assert [] in EMPTY_DIR;
      vols := vols[id := EMPTY_DIR];
      return Ok(None);
    }

    /** One try: the generation in full, or nothing when it is gone. */
    method CopyGeneration(id: string, gen: string) returns (copied: bool)
      requires Valid() && IsGen(gen) && id !in vols
      modifies this`vols, this`inUse
      ensures Valid() && inUse == old(inUse) && copied == (gen in dirs)
      ensures vols == if copied then old(vols)[id := dirs[gen]] else old(vols)
    {
      MarkUnmark(inUse, Gen(gen));
      MarkInUse(Gen(gen));
      copied := gen in dirs;
      if copied {
        var c := CopyTree(dirs[gen]);
        vols := vols[id := c.dst];
      }
      Unmark(Gen(gen));
    }

    method CleanGenerations()
      requires Valid()
      modifies this`dirs
      ensures Valid()
      ensures Cleaned(old(dirs), dirs, if manifest.Some? then manifest.value.gen else "", inUse)
    {
      var current := if manifest.Some? then manifest.value.gen else "";
      var todo := set n | n in dirs && (IsGen(n) || IsTrash(n));
      while todo != {}
        invariant Cleaning(old(dirs), dirs, todo, current, inUse)
        decreases |todo|
      {
        var name :| name in todo;
        CleanEntry(old(dirs), todo, current, name);
        todo := todo - {name};
      }
    }

    /** One turn of the loop. */
    method CleanEntry(ghost before: map<string, Tree>, ghost todo: set<string>, current: string, name: string)
      requires Cleaning(before, dirs, todo, current, inUse) && name in todo
      modifies this`dirs
      ensures Cleaning(before, dirs, todo - {name}, current, inUse)
    {
      var dir := name;
      if IsGen(name) {
        var busy := Busy(Gen(name));
        if name == current || busy || !CanRename(dirs, name) {
          return;
        }
        dirs := (dirs - {name})[Trash(name) := dirs[name]];
        dir := Trash(name);
      }
      dirs := dirs - {dir};
      OneGone(before, old(dirs), todo, current, inUse, name);
      assert dirs == if IsGen(name) then old(dirs) - {name} - {Trash(name)} else old(dirs) - {name};
    }

    /** The copying part of a commit: the new generation stays in use.  There is nothing to
        copy when the run has no volume. */
    method BuildGeneration(id: string, gen: string) returns (copied: bool)
      requires Valid() && gen !in dirs
      modifies this`dirs, this`inUse
      ensures Valid() && copied == (id in vols) && dirs == if copied then old(dirs)[gen := vols[id]] else old(dirs)
      ensures inUse == Marked(old(inUse), Gen(gen)) && Unmarked(inUse, Gen(gen)) == old(inUse)
    {
      MarkUnmark(inUse, Gen(gen));
      MarkInUse(Gen(gen));
      MarkUnmark(inUse, Vol(id));
      MarkInUse(Vol(id));
      copied := id in vols;
      if copied {
        var c := CopyTree(vols[id]);
        dirs := dirs[gen := c.dst];
      }
      Unmark(Vol(id));
    }

    /** A commit nobody interferes with.  On success the manifest names a full copy of the
        volume under the volume's own hash, and the superseded generations are cleaned
        away; on failure, as when the run has no volume, nothing has changed. */
    method Commit(id: string, gen: string, writeOk: bool) returns (ok: bool)
      requires Valid() && IsGen(gen) && gen !in dirs
      modifies this`dirs, this`inUse, this`manifest
      ensures Valid() && inUse == old(inUse)
      ensures ok <==> id in vols && hash(vols[id]).Ok? && writeOk
      ensures !ok ==> manifest == old(manifest) && dirs == old(dirs)
      ensures ok ==> manifest == Some(Manifest(repo, hash(vols[id]).value.0, hash(vols[id]).value.1, gen))
      ensures ok ==> gen in dirs && dirs[gen] == vols[id] && Cleaned(old(dirs)[gen := vols[id]], dirs, gen, inUse)
    {
      var h := hash(At(vols, id));
      if h.Err? {
        return false;
      }
      var copied := BuildGeneration(id, gen);
      if !copied || !writeOk {
        Unmark(Gen(gen));
        dirs := dirs - {gen};
        return false;
      }
      manifest := Some(Manifest(repo, h.value.0, h.value.1, gen));
      Unmark(Gen(gen));
      CleanGenerations();
      return true;
    }
  }
}
