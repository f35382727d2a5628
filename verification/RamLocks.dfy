/** The order in which directory operations lock entry maps, and when it can deadlock. `rmdir` locks a
    directory and then its child; every other operation but `rename` locks one map. `rename` runs
    alone among renames and locks its two directories, the ancestor first, and then the directory it
    replaces.
  */
module RamLocks {
  import opened Outcomes
  import opened RamTree
  import opened RamTreeProofs

  /** The directory that the rename replaces, if it replaces one and does not give up before
      locking it. */
  function Replaced(dirs: Dirs, s: nat, name: string, t: nat, newName: string): Option<nat>
    requires s in dirs && t in dirs
  {
    if name !in dirs[s].entries || newName !in dirs[t].entries then None
    else
      var x := dirs[t].entries[newName];
      if dirs[s].entries[name].kind == Directory && x.kind == Directory && x.ino != s then Some(x.ino) else None
  }

  /** The maps that `rename` locks, in order. */
  ghost function RenameLocks(dirs: Dirs, s: nat, name: string, t: nat, newName: string): seq<nat>
    requires s in dirs && t in dirs
  {
    var both :=
      if s == t then [s]
      else if Within(dirs, t, s) then [s, t]
      else if Within(dirs, s, t) then [t, s]
      else if s < t then [s, t] else [t, s];
    match Replaced(dirs, s, name, t, newName)
    case None => both
    case Some(x) => both + [x]
  }

  // ---- deadlock ----------------------------------------------------------------------------------------

  /** A `rmdir` that has locked the parent and waits for the child. */
  datatype Wait = Wait(holds: nat, wants: nat)

  ghost predicate RmdirWaits(dirs: Dirs, w: Wait) {
    exists name :: Names(dirs, w.holds, name, w.wants)
  }

  /** Each waits for what the next one holds. */
  ghost predicate Chain(dirs: Dirs, waits: seq<Wait>) {
    && waits != [] && (forall i :: 0 <= i < |waits| ==> RmdirWaits(dirs, waits[i]))
    && forall i :: 0 < i < |waits| ==> waits[i - 1].wants == waits[i].holds
  }

  /** The rename holds the first `n` of its locks and waits for the next; the task that holds that one
      waits, and so on, until one waits for a lock of the rename. */
  ghost predicate Stuck(dirs: Dirs, locks: seq<nat>, n: nat, waits: seq<Wait>) {
    && n < |locks| && Chain(dirs, waits) && waits[0].holds == locks[n]
    && waits[|waits| - 1].wants in locks[..n]
  }

  ghost predicate CanStick(dirs: Dirs, locks: seq<nat>, n: nat) {
    exists waits: seq<Wait> :: Stuck(dirs, locks, n, waits)
  }

  ghost predicate CanDeadlock(dirs: Dirs, locks: seq<nat>) {
    exists n: nat :: CanStick(dirs, locks, n)
  }

  /** A chain of removals leads down. */
  lemma {:induction false} ChainLeadsDown(dirs: Dirs, waits: seq<Wait>)
    requires Tree(dirs) && Chain(dirs, waits)
    ensures waits[0].holds in dirs && Within(dirs, waits[|waits| - 1].wants, waits[0].holds)
    ensures waits[|waits| - 1].wants != waits[0].holds
    decreases |waits|
  {
    var n := |waits| - 1;
    var last := waits[n];
    assert RmdirWaits(dirs, last);
    var name :| Names(dirs, last.holds, name, last.wants);
    assert EntriesOk(dirs, last.holds);
    WithinStep(dirs, last.wants, waits[0].holds);
    assert Up(dirs, last.holds, 0) == Some(last.holds);
    if n > 0 {
      assert Chain(dirs, waits[..n]);
      ChainLeadsDown(dirs, waits[..n]);
    }
    Above(dirs, last.wants, waits[0].holds);
  }

  /** What lies above the parent is not the directory itself. */
  lemma Above(dirs: Dirs, c: nat, a: nat)
    requires Tree(dirs) && c in dirs && dirs[c].parent.Some? && Within(dirs, dirs[c].parent.value, a)
    ensures c != a
  {
    ParentNotWithin(dirs, c);
  }

  /** So removals alone never deadlock. */
  lemma RemovalsNeverDeadlock(dirs: Dirs, waits: seq<Wait>)
    requires Tree(dirs) && Chain(dirs, waits)
    ensures waits[|waits| - 1].wants != waits[0].holds
  {
    ChainLeadsDown(dirs, waits);
  }

  /** A live directory, with everything above it, has an entry in its parent. */
  lemma {:induction false} DownChain(dirs: Dirs, d: nat, a: nat, n: nat) returns (waits: seq<Wait>)
    requires Tree(dirs) && d in dirs && !dirs[d].dead && d != a && Up(dirs, d, n) == Some(a)
    ensures Chain(dirs, waits) && waits[0].holds == a && waits[|waits| - 1].wants == d
    decreases n
  {
    assert DirOk(dirs, d);
    var p := dirs[d].parent.value;
    var name :| Names(dirs, p, name, d);
    assert RmdirWaits(dirs, Wait(p, d));
    if p == a {
      waits := [Wait(p, d)];
    } else {
      assert DirOk(dirs, p);
      var above := DownChain(dirs, p, a, n - 1);
      waits := above + [Wait(p, d)];
    }
  }

  /** Waiting for `x` while holding `h` can close a circle exactly when `h` lies below `x`. */
  lemma StuckExactly(dirs: Dirs, locks: seq<nat>, n: nat)
    requires Tree(dirs) && n < |locks| && locks[n] !in locks[..n]
    requires forall i :: 0 <= i < n ==> locks[i] in dirs && !dirs[locks[i]].dead
    ensures CanStick(dirs, locks, n) <==>
            exists i :: 0 <= i < n && Within(dirs, locks[i], locks[n])
  {
    if waits: seq<Wait> :| Stuck(dirs, locks, n, waits) {
      ChainLeadsDown(dirs, waits);
      var i :| 0 <= i < n && locks[..n][i] == waits[|waits| - 1].wants;
      assert Within(dirs, locks[i], locks[n]);
    }
    if i :| 0 <= i < n && Within(dirs, locks[i], locks[n]) {
      var k: nat :| Up(dirs, locks[i], k) == Some(locks[n]);
      assert locks[i] == locks[..n][i];
      var waits := DownChain(dirs, locks[i], locks[n], k);
      assert Stuck(dirs, locks, n, waits);
    }
  }

  // ---- rename ---------------------------------------------------------------------------------------------

  /** Two different directories never lie below each other. */
  lemma NotBothWays(dirs: Dirs, a: nat, b: nat)
    requires Tree(dirs) && a in dirs && b in dirs && a != b && Within(dirs, a, b)
    ensures !Within(dirs, b, a)
  {
    if Within(dirs, b, a) {
      var m: nat :| Up(dirs, a, m) == Some(b);
      var n: nat :| Up(dirs, b, n) == Some(a);
      assert DirOk(dirs, a) && DirOk(dirs, ROOT);
      var k: nat :| Up(dirs, a, k) == Some(ROOT);
      UpTwice(dirs, a, m, n, b);
      NoCycle(dirs, a, m + n, k);
    }
  }

  /** The two directories themselves are locked in a safe order. */
  lemma BothSafe(dirs: Dirs, s: nat, t: nat, both: seq<nat>)
    requires Tree(dirs) && s in dirs && t in dirs
    requires both == if s == t then [s]
                     else if Within(dirs, t, s) then [s, t]
                     else if Within(dirs, s, t) then [t, s]
                     else if s < t then [s, t] else [t, s]
    ensures forall i, j :: 0 <= i < j < |both| ==> !Within(dirs, both[i], both[j]) && both[i] != both[j]
    ensures forall d :: d in both <==> d == s || d == t
  {
    if s != t && Within(dirs, t, s) {
      NotBothWays(dirs, t, s);
    }
  }

  /** The replaced directory is a child of the target, and neither of the two. */
  lemma ReplacedIsChild(dirs: Dirs, s: nat, name: string, t: nat, newName: string, x: nat)
    requires Tree(dirs) && s in dirs && t in dirs && Replaced(dirs, s, name, t, newName) == Some(x)
    ensures x in dirs && x != s && x != t && !Within(dirs, t, x)
  {
    assert Names(dirs, t, newName, x) && EntriesOk(dirs, t);
    ParentNotWithin(dirs, x);
  }

  /** A rename can deadlock with removals if and only if the directory it replaces lies above the one
      it takes the entry from. */
  lemma RenameDeadlocks(dirs: Dirs, s: nat, name: string, t: nat, newName: string)
    requires Tree(dirs) && s in dirs && t in dirs && Check(dirs, s, name, t, newName) == Ok(true)
    ensures CanDeadlock(dirs, RenameLocks(dirs, s, name, t, newName)) <==>
            var x := Replaced(dirs, s, name, t, newName); x.Some? && Within(dirs, s, x.value)
  {
    var locks, x := RenameLocks(dirs, s, name, t, newName), Replaced(dirs, s, name, t, newName);
    var both := if x.None? then locks else locks[..|locks| - 1];
    BothSafe(dirs, s, t, both);
    assert DirOk(dirs, s) && DirOk(dirs, t);
    if x.Some? {
      ReplacedIsChild(dirs, s, name, t, newName, x.value);
      assert locks == both + [x.value];
    }
    forall n: nat | n < |locks|
      ensures CanStick(dirs, locks, n) <==> n == |both| && Within(dirs, s, x.value)
    {
      StuckAt(dirs, locks, both, n, s, t, x);
    }
    if x.Some? && Within(dirs, s, x.value) {
      assert CanStick(dirs, locks, |both|);
    }
  }

  lemma StuckAt(dirs: Dirs, locks: seq<nat>, both: seq<nat>, n: nat, s: nat, t: nat, x: Option<nat>)
    requires Tree(dirs) && s in dirs && t in dirs && !dirs[s].dead && !dirs[t].dead && n < |locks|
    requires forall i, j :: 0 <= i < j < |both| ==> !Within(dirs, both[i], both[j]) && both[i] != both[j]
    requires forall d :: d in both <==> d == s || d == t
    requires if x.None? then locks == both else locks == both + [x.value] && x.value != s && x.value != t
    requires x.Some? ==> !Within(dirs, t, x.value)
    ensures CanStick(dirs, locks, n) <==> n == |both| && Within(dirs, s, x.value)
  {
    assert forall i :: 0 <= i < n ==> locks[i] == both[i] && both[i] in both;
    StuckExactly(dirs, locks, n);
    if n == |both| && Within(dirs, s, x.value) {
      assert s in both;
      var i :| 0 <= i < |both| && both[i] == s;
      assert Within(dirs, locks[i], locks[n]);
    }
  }

  /** It can happen: `/a/b/c` is renamed onto `/a` while `/a/b` is removed. The rename holds the map of
      `b` and waits for that of `a`, the removal the other way round. */
  lemma DeadlockHappens() returns (dirs: Dirs)
    ensures Tree(dirs) && ROOT in dirs && 3 in dirs && Check(dirs, 3, "c", ROOT, "a") == Ok(true)
    ensures RenameLocks(dirs, 3, "c", ROOT, "a") == [ROOT, 3, 2]
    ensures Stuck(dirs, [ROOT, 3, 2], 2, [Wait(2, 3)])
  {
    dirs := map[ROOT := Dir(None, map["a" := Entry(Directory, 2)], false),
                2 := Dir(Some(ROOT), map["b" := Entry(Directory, 3)], false),
                3 := Dir(Some(2), map["c" := Entry(Directory, 4)], false),
                4 := Dir(Some(3), map[], false)];
    ThreeDeep(dirs);
  }

  lemma ThreeDeep(dirs: Dirs)
    requires dirs == map[ROOT := Dir(None, map["a" := Entry(Directory, 2)], false),
                         2 := Dir(Some(ROOT), map["b" := Entry(Directory, 3)], false),
                         3 := Dir(Some(2), map["c" := Entry(Directory, 4)], false),
                         4 := Dir(Some(3), map[], false)]
    ensures Tree(dirs) && Check(dirs, 3, "c", ROOT, "a") == Ok(true)
    ensures RenameLocks(dirs, 3, "c", ROOT, "a") == [ROOT, 3, 2]
    ensures Stuck(dirs, [ROOT, 3, 2], 2, [Wait(2, 3)])
  {
    assert Up(dirs, ROOT, 0) == Some(ROOT);
    assert Up(dirs, 2, 1) == Some(ROOT);
    assert Up(dirs, 3, 2) == Some(ROOT) by {
      assert Up(dirs, 3, 2) == Up(dirs, 2, 1);
    }
    assert Up(dirs, 4, 3) == Some(ROOT) by {
      assert Up(dirs, 4, 3) == Up(dirs, 3, 2);
    }
    assert Names(dirs, ROOT, "a", 2) && Names(dirs, 2, "b", 3) && Names(dirs, 3, "c", 4);
    assert RmdirWaits(dirs, Wait(2, 3));
    RootIsTop(dirs, 3);
    RootIsTop(dirs, 4);
  }

  lemma RootIsTop(dirs: Dirs, d: nat)
    requires ROOT in dirs && dirs[ROOT].parent.None? && d != ROOT
    ensures !Within(dirs, ROOT, d)
  {
    if n: nat :| Up(dirs, ROOT, n) == Some(d) {
      assert false;
    }
  }
}
