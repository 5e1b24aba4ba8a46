/** Directory trees and the walk that copies one into another.

    A tree is a flat map from relative paths to nodes.  The walk is cut at every
    path operation, so that other threads can change the source between any two of
    them; `CopyStep` is one operation. */
module WarmTree {
  /** A path below a tree's root; `[]` is the root itself. */
  type Rel = seq<string>

  datatype Node = Dir | File(content: string) | Link(target: string)

  type Tree = map<Rel, Node>

  const EMPTY_DIR: Tree := map[[] := Dir]

  function Parent(p: Rel): Rel
    requires p != []
  {
    p[..|p| - 1]
  }

  /** What a resting directory looks like: rooted, and every node inside a directory. */
  predicate WellFormed(t: Tree) {
    && [] in t && t[[]] == Dir
    && forall p | p in t && p != [] :: Parent(p) in t && t[Parent(p)] == Dir
  }

  function Children(t: Tree, p: Rel): set<Rel> {
    set q | q in t && q != [] && Parent(q) == p
  }

  /** One pending operation: `Enter` stats a path (and makes a directory), `List` opens a
      directory, `Read` reads the entries of the directory just opened, and `Fetch` opens a
      file or reads a link and writes it.  All but `Read` go by path. */
  datatype Task = Enter(at: Rel) | List(at: Rel) | Read(at: Rel) | Fetch(at: Rel)

  /** A directory that has been opened is read before anything else is done. */
  predicate Ready(todo: set<Task>, t: Task) {
    t in todo && forall u | u in todo && u.Read? :: u == t
  }

  /** How a walk stands: still going, stopped on "no such file", or stopped on any
      other error. */
  datatype Outcome = Going | Vanished | Broken

  function ChildTasks(src: Tree, p: Rel): set<Task> {
    set q | q in Children(src, p) :: Enter(q)
  }

  datatype Copy = Copy(outcome: Outcome, dst: Tree, todo: set<Task>)

  const START: set<Task> := {Enter([])}

  /** MkdirAll of every missing directory strictly above `p`. */
  function WithAncestors(t: Tree, p: Rel): Tree {
    t + map n | 0 <= n < |p| && p[..n] !in t :: p[..n] := Dir
  }

  predicate AncestorsAreDirs(t: Tree, p: Rel) {
    forall n | 0 <= n < |p| && p[..n] in t :: t[p[..n]] == Dir
  }

  /** Writes one node: MkdirAll, create-or-truncate, or symlink (which needs a parent
      directory and refuses to replace anything). */
  function Put(dst: Tree, p: Rel, node: Node): (Outcome, Tree) {
    if !AncestorsAreDirs(dst, p) then (Broken, dst)
    else if node.Link? && p != [] && Parent(p) !in dst then (Vanished, dst)
    else if p in dst && (node.Link? || node.Dir? != dst[p].Dir? || dst[p].Link?) then (Broken, dst)
    else (Going, WithAncestors(dst, p)[p := node])
  }

  /** One operation of the walk, against the source as it is at that moment (no entries:
      the source path names nothing).  `held` is the tree an opened directory belongs to:
      the source as a rule, but a directory stays open when its tree is renamed. */
  function CopyStep(src: Tree, held: Tree, dst: Tree, todo: set<Task>, t: Task): Copy {
    if t.Read? then
      if t.at !in held || !held[t.at].Dir? then Copy(Vanished, dst, todo)
      else Copy(Going, dst, todo - {t} + ChildTasks(held, t.at))
    else if t.at !in src then Copy(Vanished, dst, todo)
    else
      var node := src[t.at];
      match t
      case Enter(p) =>
        if node.Dir? then
          var (o, dst') := Put(dst, p, Dir);
          Copy(o, dst', todo - {t} + {List(p)})
        else Copy(Going, dst, todo - {t} + {Fetch(p)})
      case List(p) =>
        if node.Dir? then Copy(Going, dst, todo - {t} + {Read(p)})
        else Copy(Broken, dst, todo)
      case Fetch(p) =>
        if node.Dir? then Copy(Broken, dst, todo)
        else
          var (o, dst') := Put(dst, p, node);
          Copy(o, dst', todo - {t})
  }

  /** What a walk of `src` keeps: everything written is right, everything missing lies
      under a pending task, and no two pending tasks meet. */
  ghost predicate CopyInv(src: Tree, dst: Tree, todo: set<Task>) {
    && WellFormed(src) && Sound(src, dst) && Closed(dst)
    && Covered(src, dst, todo) && TasksOk(src, dst, todo) && Apart(todo) && OneRead(todo)
  }

  /** At most one directory is open. */
  ghost predicate OneRead(todo: set<Task>) {
    forall t, u | t in todo && u in todo && t.Read? && u.Read? :: t == u
  }

  ghost predicate Sound(src: Tree, dst: Tree) {
    forall q | q in dst :: q in src && dst[q] == src[q]
  }

  ghost predicate Closed(dst: Tree) {
    forall q | q in dst && q != [] :: Parent(q) in dst
  }

  ghost predicate Covered(src: Tree, dst: Tree, todo: set<Task>) {
    forall q | q in src && q !in dst :: PendingAbove(todo, q)
  }

  ghost predicate PendingAbove(todo: set<Task>, q: Rel) {
    exists t :: t in todo && t.at <= q
  }

  ghost predicate TasksOk(src: Tree, dst: Tree, todo: set<Task>) {
    forall t | t in todo :: TaskOk(src, dst, t)
  }

  ghost predicate TaskOk(src: Tree, dst: Tree, t: Task) {
    && t.at in src
    && (t.at != [] ==> Parent(t.at) in dst)
    && match t
       case Enter(p) => p !in dst
       case Fetch(p) => p !in dst && !src[p].Dir?
       case List(p) => p in dst && src[p].Dir? && NothingBelow(dst, p)
       case Read(p) => p in dst && src[p].Dir? && NothingBelow(dst, p)
  }

  ghost predicate NothingBelow(dst: Tree, p: Rel) {
    forall q | q in dst && p <= q :: q == p
  }

  ghost predicate Apart(todo: set<Task>) {
    forall t, u | t in todo && u in todo && t.at <= u.at :: t == u
  }

  lemma CopyStarts(src: Tree)
    requires WellFormed(src)
    ensures CopyInv(src, map[], START)
  {
    assert Covered(src, map[], START) by {
      forall q | q in src ensures PendingAbove(START, q) {
        assert Enter([]) in START && Enter([]).at <= q;
      }
    }
    assert TasksOk(src, map[], START) by {
      assert TaskOk(src, map[], Enter([]));
    }
  }

  lemma CopyEnds(src: Tree, dst: Tree)
    requires CopyInv(src, dst, {})
    ensures dst == src
  {
    assert forall q :: !PendingAbove({}, q);
  }

  /** Directories between the root and any written node have all been written. */
  lemma {:induction false} AncestorsWritten(src: Tree, dst: Tree, p: Rel, n: nat)
    requires WellFormed(src) && Sound(src, dst) && Closed(dst)
    requires p in src && p != [] && Parent(p) in dst && n < |p|
    ensures p[..n] in dst && dst[p[..n]] == Dir
    decreases |p| - n
  {
    if n == |p| - 1 {
      assert p[..n] == Parent(p);
      ParentIsDir(src, dst, p);
    } else {
      AncestorsWritten(src, dst, p, n + 1);
      assert Parent(p[..n + 1]) == p[..n];
      ParentIsDir(src, dst, p[..n + 1]);
    }
  }

  lemma ParentIsDir(src: Tree, dst: Tree, q: Rel)
    requires WellFormed(src) && Sound(src, dst) && Closed(dst) && q != [] && q in src && (q in dst || Parent(q) in dst)
    ensures Parent(q) in dst && dst[Parent(q)] == Dir
  {
  }

  lemma PutFresh(src: Tree, dst: Tree, p: Rel)
    requires WellFormed(src) && Sound(src, dst) && Closed(dst)
    requires p in src && p !in dst && (p != [] ==> Parent(p) in dst)
    ensures Put(dst, p, src[p]) == (Going, dst[p := src[p]])
  {
    AllAncestors(src, dst, p);
    NothingToMake(dst, p);
    if p != [] {
      assert p[..|p| - 1] == Parent(p);
    }
  }

  lemma NothingToMake(dst: Tree, p: Rel)
    requires forall n | 0 <= n < |p| :: p[..n] in dst
    ensures WithAncestors(dst, p) == dst
  {
  }

  lemma AllAncestors(src: Tree, dst: Tree, p: Rel)
    requires WellFormed(src) && Sound(src, dst) && Closed(dst)
    requires p in src && (p != [] ==> Parent(p) in dst)
    ensures forall n | 0 <= n < |p| :: p[..n] in dst && dst[p[..n]] == Dir
  {
    forall n | 0 <= n < |p| ensures p[..n] in dst && dst[p[..n]] == Dir {
      AncestorsWritten(src, dst, p, n);
    }
  }

  /** What one operation on an intact source does. */
  lemma StepOnIntact(src: Tree, dst: Tree, todo: set<Task>, t: Task)
    requires WellFormed(src) && Sound(src, dst) && Closed(dst) && TaskOk(src, dst, t)
    ensures CopyStep(src, src, dst, todo, t) ==
            if t.Read? then Copy(Going, dst, todo - {t} + ChildTasks(src, t.at))
            else if t.List? then Copy(Going, dst, todo - {t} + {Read(t.at)})
            else if t.Enter? && !src[t.at].Dir? then Copy(Going, dst, todo - {t} + {Fetch(t.at)})
            else Copy(Going, dst[t.at := src[t.at]], if t.Enter? then todo - {t} + {List(t.at)} else todo - {t})
  {
    if t.Enter? || t.Fetch? {
      PutFresh(src, dst, t.at);
    }
  }

  /** One operation on an intact source never fails and keeps the invariant. */
  lemma CopyAdvances(src: Tree, dst: Tree, todo: set<Task>, t: Task)
    requires CopyInv(src, dst, todo) && Ready(todo, t)
    ensures var c := CopyStep(src, src, dst, todo, t);
            c.outcome == Going && CopyInv(src, c.dst, c.todo)
  {
    assert TaskOk(src, dst, t);
    StepOnIntact(src, dst, todo, t);
    if t.Read? {
      ReadAdvances(src, dst, todo, t.at);
    } else if t.List? {
      TaskAdvances(src, dst, todo, t, Read(t.at));
    } else if t.Fetch? || src[t.at].Dir? {
      WriteAdvances(src, dst, todo, t);
    } else {
      TaskAdvances(src, dst, todo, t, Fetch(t.at));
    }
  }

  lemma TaskAdvances(src: Tree, dst: Tree, todo: set<Task>, t: Task, u: Task)
    requires CopyInv(src, dst, todo) && Ready(todo, t) && t.at == u.at && TaskOk(src, dst, u)
    ensures CopyInv(src, dst, todo - {t} + {u})
  {
    HandOver(src, dst, todo, t, u);
    SwapTask(src, dst, todo, t, u);
  }

  lemma SwapTask(src: Tree, dst: Tree, todo: set<Task>, t: Task, u: Task)
    requires TasksOk(src, dst, todo) && Ready(todo, t) && TaskOk(src, dst, u)
    ensures TasksOk(src, dst, todo - {t} + {u}) && OneRead(todo - {t} + {u})
  {
  }

  /** Replacing a task by another at the same path keeps coverage and separation. */
  lemma HandOver(src: Tree, dst: Tree, todo: set<Task>, t: Task, u: Task)
    requires t in todo && t.at == u.at && Covered(src, dst, todo) && Apart(todo)
    ensures Covered(src, dst, todo - {t} + {u}) && Apart(todo - {t} + {u})
  {
    var todo' := todo - {t} + {u};
    forall q | q in src && q !in dst ensures PendingAbove(todo', q) {
      assert PendingAbove(todo, q);
      var v :| v in todo && v.at <= q;
      assert (if v == t then u else v) in todo';
    }
  }

  /** Writing the node a task stands on: the task is done, or becomes a listing. */
  lemma WriteAdvances(src: Tree, dst: Tree, todo: set<Task>, t: Task)
    requires CopyInv(src, dst, todo) && t in todo && (t.Enter? || t.Fetch?)
    requires t.Enter? ==> src[t.at].Dir?
    ensures CopyInv(src, dst[t.at := src[t.at]], if t.Enter? then todo - {t} + {List(t.at)} else todo - {t})
  {
    assert TaskOk(src, dst, t);
    NotBelowUnwritten(dst, t.at);
    WriteKeepsNodes(src, dst, t.at);
    WriteKeepsTasks(src, dst, todo, t);
    WriteKeepsCover(src, dst, todo, t);
    WriteKeepsOneRead(todo, t);
  }

  lemma WriteKeepsNodes(src: Tree, dst: Tree, p: Rel)
    requires Sound(src, dst) && Closed(dst) && p in src && (p != [] ==> Parent(p) in dst)
    ensures Sound(src, dst[p := src[p]]) && Closed(dst[p := src[p]])
  {
  }

  lemma WriteKeepsOneRead(todo: set<Task>, t: Task)
    requires OneRead(todo) && (t.Enter? || t.Fetch?)
    ensures OneRead(if t.Enter? then todo - {t} + {List(t.at)} else todo - {t})
  {
  }

  lemma WriteKeepsTasks(src: Tree, dst: Tree, todo: set<Task>, t: Task)
    requires TasksOk(src, dst, todo) && Apart(todo) && t in todo && (t.Enter? || t.Fetch?)
    requires t.Enter? ==> src[t.at].Dir?
    requires forall q | q in dst :: !(t.at <= q)
    ensures TasksOk(src, dst[t.at := src[t.at]], if t.Enter? then todo - {t} + {List(t.at)} else todo - {t})
  {
    var dst' := dst[t.at := src[t.at]];
    assert TaskOk(src, dst, t);
    assert NothingBelow(dst', t.at);
    forall u | u in todo && u != t ensures TaskOk(src, dst', u) {
      assert TaskOk(src, dst, u);
      assert !(u.at <= t.at) && !(t.at <= u.at);
    }
  }

  lemma WriteKeepsCover(src: Tree, dst: Tree, todo: set<Task>, t: Task)
    requires WellFormed(src) && Covered(src, dst, todo) && TasksOk(src, dst, todo) && Apart(todo) && t in todo
             && (t.Enter? || t.Fetch?)
    requires t.Enter? ==> src[t.at].Dir?
    ensures var dst' := dst[t.at := src[t.at]];
            var todo' := if t.Enter? then todo - {t} + {List(t.at)} else todo - {t};
            Covered(src, dst', todo') && Apart(todo')
  {
    var dst' := dst[t.at := src[t.at]];
    if t.Enter? {
      HandOver(src, dst, todo, t, List(t.at));
    } else {
      assert TaskOk(src, dst, t);
      forall q | q in src && q !in dst' ensures PendingAbove(todo - {t}, q) {
        assert PendingAbove(todo, q);
        var v :| v in todo && v.at <= q;
        if v == t {
          LeafOnly(src, t.at, q);
        }
      }
    }
  }

  /** Nothing is written below a path that is not itself written. */
  lemma NotBelowUnwritten(dst: Tree, p: Rel)
    requires Closed(dst) && p !in dst
    ensures forall q | q in dst :: !(p <= q)
  {
    forall q | q in dst ensures !(p <= q) {
      NotBelow(dst, p, q);
    }
  }

  lemma AboveParent(p: Rel, q: Rel)
    requires q != []
    ensures p <= q <==> p == q || p <= Parent(q)
  {
  }

  lemma {:induction false} NotBelow(dst: Tree, p: Rel, q: Rel)
    requires Closed(dst) && p !in dst && q in dst
    ensures !(p <= q)
    decreases |q|
  {
    if q != [] {
      NotBelow(dst, p, Parent(q));
      AboveParent(p, q);
    }
  }

  /** A node that is not a directory has nothing below it. */
  lemma {:induction false} LeafOnly(src: Tree, p: Rel, q: Rel)
    requires WellFormed(src) && p in src && !src[p].Dir? && q in src && p <= q
    ensures p == q
    decreases |q|
  {
    if p != q {
      assert p <= Parent(q);
      LeafOnly(src, p, Parent(q));
    }
  }

  lemma ReadAdvances(src: Tree, dst: Tree, todo: set<Task>, p: Rel)
    requires CopyInv(src, dst, todo) && Read(p) in todo
    ensures CopyInv(src, dst, todo - {Read(p)} + ChildTasks(src, p))
  {
    ReadKeepsTasks(src, dst, todo, p);
    ReadKeepsCover(src, dst, todo, p);
    ReadKeepsApart(src, todo, p);
  }

  lemma ReadKeepsTasks(src: Tree, dst: Tree, todo: set<Task>, p: Rel)
    requires TasksOk(src, dst, todo) && Read(p) in todo
    ensures TasksOk(src, dst, todo - {Read(p)} + ChildTasks(src, p))
  {
    assert TaskOk(src, dst, Read(p));
    forall k | k in Children(src, p) ensures TaskOk(src, dst, Enter(k)) {
      assert p <= k && p != k;
    }
  }

  lemma ReadKeepsCover(src: Tree, dst: Tree, todo: set<Task>, p: Rel)
    requires WellFormed(src) && Covered(src, dst, todo) && Read(p) in todo && p in dst
    ensures Covered(src, dst, todo - {Read(p)} + ChildTasks(src, p))
  {
    var todo' := todo - {Read(p)} + ChildTasks(src, p);
    forall q | q in src && q !in dst ensures PendingAbove(todo', q) {
      assert PendingAbove(todo, q);
      var u :| u in todo && u.at <= q;
      if u == Read(p) {
        assert p != q;
        BranchExists(src, q, |p| + 1);
        var k := q[..|p| + 1];
        assert Parent(k) == p;
        assert Enter(k) in todo' && Enter(k).at <= q;
      } else {
        assert u in todo';
      }
    }
  }

  lemma {:induction false} BranchExists(src: Tree, q: Rel, n: nat)
    requires WellFormed(src) && q in src && n <= |q|
    ensures q[..n] in src
    decreases |q|
  {
    if n == |q| {
      assert q[..n] == q;
    } else {
      BranchExists(src, Parent(q), n);
      assert Parent(q)[..n] == q[..n];
    }
  }

  lemma ReadKeepsApart(src: Tree, todo: set<Task>, p: Rel)
    requires Apart(todo) && Read(p) in todo
    ensures Apart(todo - {Read(p)} + ChildTasks(src, p))
  {
    var todo' := todo - {Read(p)} + ChildTasks(src, p);
    forall t, u | t in todo' && u in todo' && t.at <= u.at ensures t == u {
      if t in ChildTasks(src, p) && u in ChildTasks(src, p) {
        assert t.at == u.at;
      } else if t in ChildTasks(src, p) {
        ChildIsApart(todo, p, u, t.at);
      } else if u in ChildTasks(src, p) {
        ChildIsApart(todo, p, t, u.at);
      }
    }
  }

  /** A task elsewhere is not above a child of a listed directory. */
  lemma ChildIsApart(todo: set<Task>, p: Rel, t: Task, k: Rel)
    requires Apart(todo) && Read(p) in todo && t in todo && t != Read(p) && k != [] && Parent(k) == p
    ensures !(t.at <= k) && !(k <= t.at)
  {
    assert !(t.at <= Read(p).at) && !(Read(p).at <= t.at);
    AboveParent(t.at, k);
    AboveParent(p, k);
  }

  /** What is left to do, most significant first: paths not yet met, paths not yet
      written, paths not yet opened, operations pending. */
  ghost function Unmet(src: Tree, dst: Tree, todo: set<Task>): set<Rel> {
    src.Keys - dst.Keys - (set t | t in todo :: t.at)
  }

  ghost function Unopened(todo: set<Task>): set<Task> {
    set t | t in todo && (t.Enter? || t.List?)
  }

  ghost predicate Shrinks(src: Tree, dst: Tree, todo: set<Task>, dst': Tree, todo': set<Task>) {
    || |Unmet(src, dst', todo')| < |Unmet(src, dst, todo)|
    || (&& |Unmet(src, dst', todo')| == |Unmet(src, dst, todo)|
        && (|| |src.Keys - dst'.Keys| < |src.Keys - dst.Keys|
            || (&& dst'.Keys == dst.Keys
                && (|| |Unopened(todo')| < |Unopened(todo)|
                    || (|Unopened(todo')| == |Unopened(todo)| && |todo'| < |todo|)))))
  }

  /** One turn of the walk over a resting tree, on any pending task. */
  method CopyOne(src: Tree, dst: Tree, todo: set<Task>) returns (c: Copy)
    requires CopyInv(src, dst, todo) && todo != {}
    ensures c.outcome == Going && CopyInv(src, c.dst, c.todo)
    ensures Shrinks(src, dst, todo, c.dst, c.todo)
  {
    var t :| t in todo;
    if u :| u in todo && u.Read? {
      t := u;
    }
    CopyAdvances(src, dst, todo, t);
    WalkShrinks(src, dst, todo, t);
    c := CopyStep(src, src, dst, todo, t);
  }

  /** copyTree of a resting tree into a path where nothing exists yet: the copy is the
      tree, whatever order the walk takes. */
  method CopyTree(src: Tree) returns (c: Copy)
    requires WellFormed(src)
    ensures c.outcome == Going && c.dst == src
  {
    c := Copy(Going, map[], START);
    CopyStarts(src);
    while c.todo != {} && c.outcome == Going
      invariant c.outcome == Going && CopyInv(src, c.dst, c.todo)
      decreases |Unmet(src, c.dst, c.todo)|, |src.Keys - c.dst.Keys|, |Unopened(c.todo)|, |c.todo|
    {
      c := CopyOne(src, c.dst, c.todo);
    }
    CopyEnds(src, c.dst);
  }

  lemma StrictSubsetIsSmaller<T>(a: set<T>, b: set<T>)
    requires a < b
    ensures |a| < |b|
  {
    assert b == a + (b - a);
    assert |b| == |a| + |b - a|;
  }

  lemma WalkShrinks(src: Tree, dst: Tree, todo: set<Task>, t: Task)
    requires CopyInv(src, dst, todo) && Ready(todo, t)
    ensures var c := CopyStep(src, src, dst, todo, t); Shrinks(src, dst, todo, c.dst, c.todo)
  {
    assert TaskOk(src, dst, t);
    StepOnIntact(src, dst, todo, t);
    if t.Read? {
      ReadShrinks(src, dst, todo, t.at);
    } else if t.List? {
      OpenShrinks(src, dst, todo, t.at);
    } else if t.Fetch? || src[t.at].Dir? {
      WriteShrinks(src, dst, todo, t);
    } else {
      HandOverShrinks(src, dst, todo, t.at);
    }
  }

  lemma WriteShrinks(src: Tree, dst: Tree, todo: set<Task>, t: Task)
    requires t in todo && (t.Enter? || t.Fetch?) && t.at in src && t.at !in dst
    ensures Shrinks(src, dst, todo, dst[t.at := src[t.at]], if t.Enter? then todo - {t} + {List(t.at)} else todo - {t})
  {
    var dst' := dst[t.at := src[t.at]];
    var todo' := if t.Enter? then todo - {t} + {List(t.at)} else todo - {t};
    forall u | u in todo && u != t ensures u in todo' {}
    assert Unmet(src, dst', todo') == Unmet(src, dst, todo);
    assert t.at in src.Keys - dst.Keys && t.at !in src.Keys - dst'.Keys;
    assert src.Keys - dst'.Keys <= src.Keys - dst.Keys;
    StrictSubsetIsSmaller(src.Keys - dst'.Keys, src.Keys - dst.Keys);
  }

  lemma HandOverShrinks(src: Tree, dst: Tree, todo: set<Task>, p: Rel)
    requires Enter(p) in todo
    ensures Shrinks(src, dst, todo, dst, todo - {Enter(p)} + {Fetch(p)})
  {
    var todo' := todo - {Enter(p)} + {Fetch(p)};
    assert Enter(p).at == Fetch(p).at && Fetch(p) in todo';
    assert Unmet(src, dst, todo') == Unmet(src, dst, todo);
    assert Enter(p) in Unopened(todo);
    StrictSubsetIsSmaller(Unopened(todo'), Unopened(todo));
  }

  lemma OpenShrinks(src: Tree, dst: Tree, todo: set<Task>, p: Rel)
    requires List(p) in todo
    ensures Shrinks(src, dst, todo, dst, todo - {List(p)} + {Read(p)})
  {
    var todo' := todo - {List(p)} + {Read(p)};
    assert List(p).at == Read(p).at && Read(p) in todo';
    assert Unmet(src, dst, todo') == Unmet(src, dst, todo);
    assert List(p) in Unopened(todo);
    StrictSubsetIsSmaller(Unopened(todo'), Unopened(todo));
  }

  lemma ReadShrinks(src: Tree, dst: Tree, todo: set<Task>, p: Rel)
    requires TaskOk(src, dst, Read(p)) && Apart(todo) && Read(p) in todo
    ensures Shrinks(src, dst, todo, dst, todo - {Read(p)} + ChildTasks(src, p))
  {
    if Children(src, p) == {} {
      EmptyReadShrinks(src, dst, todo, p);
    } else {
      var todo' := todo - {Read(p)} + ChildTasks(src, p);
      var k :| k in Children(src, p);
      ChildUnmet(src, dst, todo, p, k);
      assert Enter(k) in todo' && Enter(k).at == k;
      ReadMeets(src, dst, todo, p);
      StrictSubsetIsSmaller(Unmet(src, dst, todo'), Unmet(src, dst, todo));
    }
  }

  lemma EmptyReadShrinks(src: Tree, dst: Tree, todo: set<Task>, p: Rel)
    requires p in dst && Read(p) in todo && Children(src, p) == {}
    ensures Shrinks(src, dst, todo, dst, todo - {Read(p)} + ChildTasks(src, p))
  {
    var todo' := todo - {Read(p)} + ChildTasks(src, p);
    assert todo' == todo - {Read(p)};
    assert Unmet(src, dst, todo') == Unmet(src, dst, todo) by {
      ReadMeets(src, dst, todo, p);
      assert Unmet(src, dst, todo) <= Unmet(src, dst, todo');
    }
    assert Unopened(todo') == Unopened(todo);
    StrictSubsetIsSmaller(todo', todo);
  }

  lemma ReadMeets(src: Tree, dst: Tree, todo: set<Task>, p: Rel)
    requires p in dst && Read(p) in todo
    ensures Unmet(src, dst, todo - {Read(p)} + ChildTasks(src, p)) <= Unmet(src, dst, todo)
  {
    forall u | u in todo && u.at !in dst ensures u in todo - {Read(p)} {}
  }

  lemma ChildUnmet(src: Tree, dst: Tree, todo: set<Task>, p: Rel, k: Rel)
    requires TaskOk(src, dst, Read(p)) && Apart(todo) && Read(p) in todo && k in Children(src, p)
    ensures k in Unmet(src, dst, todo)
  {
    assert p <= k && p != k;
    forall u | u in todo ensures u.at != k {
      assert Read(p).at <= u.at ==> u == Read(p);
    }
  }
}
