/** The directory tree of the in-memory filesystem. Removed directories stay in the map, marked
    dead, for whoever still holds them; their parent link is left as it was.
  */
module RamTree {
  import opened Outcomes

  const ROOT: nat := 1

  datatype Kind = File | Directory | CharDevice

  datatype Entry = Entry(kind: Kind, ino: nat)

  datatype Dir = Dir(parent: Option<nat>, entries: map<string, Entry>, dead: bool)

  type Dirs = map<nat, Dir>

  // ---- ancestors -------------------------------------------------------------------------------

  /** The directory `n` parent links up. */
  function Up(dirs: Dirs, d: nat, n: nat): Option<nat>
    decreases n
  {
    if n == 0 then Some(d)
    else if d !in dirs || dirs[d].parent.None? then None
    else Up(dirs, dirs[d].parent.value, n - 1)
  }

  /** `d` is `a` or lies below it. */
  ghost predicate Within(dirs: Dirs, d: nat, a: nat) {
    exists n: nat :: Up(dirs, d, n) == Some(a)
  }

  /** Following parent links leads to the root. */
  ghost predicate Rooted(dirs: Dirs, d: nat) {
    Within(dirs, d, ROOT)
  }

  // ---- the tree ----------------------------------------------------------------------------------

  ghost predicate Names(dirs: Dirs, p: nat, name: string, c: nat) {
    p in dirs && name in dirs[p].entries && dirs[p].entries[name] == Entry(Directory, c)
  }

  /** A directory entry names a live directory whose parent link leads back, and names it alone. */
  ghost predicate EntriesOk(dirs: Dirs, p: nat) {
    forall name, c :: Names(dirs, p, name, c) ==>
      && c in dirs && !dirs[c].dead && dirs[c].parent == Some(p)
      && forall other :: Names(dirs, p, other, c) ==> other == name
  }

  /** The root has no parent; any other directory has one, and an entry there while it lives. */
  ghost predicate DirOk(dirs: Dirs, d: nat)
    requires d in dirs
  {
    && Rooted(dirs, d) && (d == ROOT <==> dirs[d].parent.None?) && (d == ROOT ==> !dirs[d].dead)
    && (dirs[d].parent.Some? ==>
        dirs[d].parent.value in dirs && (!dirs[d].dead ==> exists name :: Names(dirs, dirs[d].parent.value, name, d)))
    && (dirs[d].dead ==> dirs[d].entries == map[])
  }

  ghost predicate Tree(dirs: Dirs) {
    && ROOT in dirs
    && (forall d {:trigger DirOk(dirs, d)} :: d in dirs ==> DirOk(dirs, d))
    && forall d {:trigger EntriesOk(dirs, d)} :: d in dirs ==> EntriesOk(dirs, d)
  }

  lemma {:induction false} UpTwice(dirs: Dirs, d: nat, m: nat, n: nat, mid: nat)
    requires Up(dirs, d, m) == Some(mid)
    ensures Up(dirs, d, m + n) == Up(dirs, mid, n)
    decreases m
  {
    if m > 0 {
      UpTwice(dirs, dirs[d].parent.value, m - 1, n, mid);
    }
  }

  /** Ancestors depend on the parent links along the way only. */
  lemma {:induction false} UpSame(dirs: Dirs, dirs': Dirs, d: nat, n: nat)
    requires forall x :: x in dirs ==> x in dirs' && dirs'[x].parent == dirs[x].parent
    requires Up(dirs, d, n).Some?
    ensures Up(dirs', d, n) == Up(dirs, d, n)
    decreases n
  {
    if n > 0 {
      UpSame(dirs, dirs', dirs[d].parent.value, n - 1);
    }
  }

  lemma RootedSame(dirs: Dirs, dirs': Dirs, d: nat)
    requires forall x :: x in dirs ==> x in dirs' && dirs'[x].parent == dirs[x].parent
    requires Rooted(dirs, d)
    ensures Rooted(dirs', d)
  {
    var n: nat :| Up(dirs, d, n) == Some(ROOT);
    UpSame(dirs, dirs', d, n);
  }

  /** One step up from a directory that is not the ancestor itself. */
  lemma WithinStep(dirs: Dirs, d: nat, a: nat)
    requires d in dirs && dirs[d].parent.Some?
    ensures Within(dirs, d, a) <==> d == a || Within(dirs, dirs[d].parent.value, a)
  {
    var p := dirs[d].parent.value;
    if Within(dirs, d, a) && d != a {
      var n: nat :| Up(dirs, d, n) == Some(a);
      assert Up(dirs, p, n - 1) == Some(a);
    }
    if Within(dirs, p, a) {
      var n: nat :| Up(dirs, p, n) == Some(a);
      assert Up(dirs, d, n + 1) == Some(a);
    }
    assert Up(dirs, d, 0) == Some(d);
  }

  /** No directory lies below itself again. */
  lemma {:induction false} NoCycle(dirs: Dirs, d: nat, k: nat, n: nat)
    requires Up(dirs, d, n) == Some(ROOT) && ROOT in dirs && dirs[ROOT].parent.None? && Up(dirs, d, k) == Some(d)
    requires k > 0
    ensures false
    decreases n
  {
    if n < k {
      UpTwice(dirs, d, n, k - n, ROOT);
    } else {
      UpTwice(dirs, d, k, n - k, d);
      NoCycle(dirs, d, k, n - k);
    }
  }

  lemma ParentNotWithin(dirs: Dirs, d: nat)
    requires Tree(dirs) && d in dirs && dirs[d].parent.Some?
    ensures !Within(dirs, dirs[d].parent.value, d) && dirs[d].parent.value != d
  {
    assert DirOk(dirs, d) && DirOk(dirs, ROOT);
    var p := dirs[d].parent.value;
    assert Up(dirs, p, 0) == Some(p);
    if Within(dirs, p, d) {
      var k: nat :| Up(dirs, p, k) == Some(d);
      var n: nat :| Up(dirs, d, n) == Some(ROOT);
      assert Up(dirs, d, k + 1) == Some(d);
      NoCycle(dirs, d, k + 1, n);
    }
  }

  // ---- moving a subtree ----------------------------------------------------------------------------

  /** Only the parent link of `c` changes, to `t`. */
  ghost predicate Relinked(dirs: Dirs, dirs': Dirs, c: nat, t: nat) {
    && dirs'.Keys == dirs.Keys && c in dirs && dirs'[c].parent == Some(t)
    && forall x :: x in dirs && x != c ==> dirs'[x].parent == dirs[x].parent
  }

  /** Above a directory that is not below `c` nothing changes. */
  lemma {:induction false} UpAvoids(dirs: Dirs, dirs': Dirs, c: nat, t: nat, d: nat, n: nat)
    requires Relinked(dirs, dirs', c, t) && !Within(dirs, d, c)
    ensures Up(dirs', d, n) == Up(dirs, d, n)
    decreases n
  {
    assert Up(dirs, d, 0) == Some(d);
    if n > 0 && d in dirs && dirs[d].parent.Some? {
      WithinStep(dirs, d, c);
      UpAvoids(dirs, dirs', c, t, dirs[d].parent.value, n - 1);
    }
  }

  /** Everything still leads to the root after moving `c` below a directory that is not below it. */
  lemma {:induction false} MovedRooted(dirs: Dirs, dirs': Dirs, c: nat, t: nat, d: nat, n: nat)
    requires Relinked(dirs, dirs', c, t) && !Within(dirs, t, c) && Rooted(dirs, t) && c != ROOT
    requires Up(dirs, d, n) == Some(ROOT)
    ensures Rooted(dirs', d)
    decreases n
  {
    if d == c {
      var m: nat :| Up(dirs, t, m) == Some(ROOT);
      UpAvoids(dirs, dirs', c, t, t, m);
      WithinStep(dirs', c, ROOT);
    } else if n == 0 {
      assert Up(dirs', d, 0) == Some(ROOT);
    } else {
      MovedRooted(dirs, dirs', c, t, dirs[d].parent.value, n - 1);
      WithinStep(dirs', d, ROOT);
    }
  }

  // ---- the operations as values ------------------------------------------------------------------------

  const NAME_MAX: nat := 255

  function CheckName(name: string): Option<Errno> {
    if name == "" || '/' in name then Some(ENOENT)
    else if |name| > NAME_MAX then Some(ENAMETOOLONG)
    else if name == "." || name == ".." then Some(EINVAL)
    else None
  }

  function WithEntry(dirs: Dirs, d: nat, name: string, e: Entry): Dirs
    requires d in dirs
  {
    dirs[d := dirs[d].(entries := dirs[d].entries[name := e])]
  }

  function WithoutEntry(dirs: Dirs, d: nat, name: string): Dirs
    requires d in dirs
  {
    dirs[d := dirs[d].(entries := dirs[d].entries - {name})]
  }

  function Killed(dirs: Dirs, d: nat): Dirs
    requires d in dirs
  {
    dirs[d := dirs[d].(dead := true)]
  }

  /** `create`; `ino` is the next inode number. */
  function Create(dirs: Dirs, ino: nat, d: nat, name: string, kind: Kind): Result<Dirs>
    requires d in dirs
  {
    if CheckName(name).Some? then Err(CheckName(name).value)
    else if dirs[d].dead then Err(ENOENT)
    else if name in dirs[d].entries then Err(EEXIST)
    else
      match kind
      case File => Ok(WithEntry(dirs, d, name, Entry(File, ino)))
      case Directory => Ok(WithEntry(dirs, d, name, Entry(Directory, ino))[ino := Dir(Some(d), map[], false)])
      case CharDevice => Err(EINVAL)
  }

  function Unlink(dirs: Dirs, d: nat, name: string): Result<Dirs>
    requires d in dirs
  {
    if name !in dirs[d].entries then Err(ENOENT)
    else if dirs[d].entries[name].kind == Directory then Err(EISDIR)
    else Ok(WithoutEntry(dirs, d, name))
  }

  function Rmdir(dirs: Dirs, d: nat, name: string): Result<Dirs>
    requires d in dirs
  {
    if name !in dirs[d].entries then Err(ENOENT)
    else
      var e := dirs[d].entries[name];
      if e.kind != Directory || e.ino !in dirs then Err(ENOTDIR)
      else if dirs[e.ino].entries != map[] then Err(ENOTEMPTY)
      else Ok(WithoutEntry(Killed(dirs, e.ino), d, name))
  }

  /** The locked part of `rename`: what is at the new name must give way. */
  function Replace(dirs: Dirs, s: nat, t: nat, name: string, kind: Kind): Result<Dirs>
    requires t in dirs
  {
    if name !in dirs[t].entries then Ok(dirs)
    else
      var x := dirs[t].entries[name];
      if kind == Directory && x.kind == Directory then
        if x.ino == s || x.ino !in dirs || dirs[x.ino].entries != map[] then Err(ENOTEMPTY) else Ok(Killed(dirs, x.ino))
      else if kind == Directory then Err(ENOTDIR)
      else if x.kind == Directory then Err(EISDIR)
      else Ok(dirs)
  }

  function Move(dirs: Dirs, s: nat, name: string, t: nat, newName: string, e: Entry): Dirs
    requires s in dirs && t in dirs
  {
    var linked := WithoutEntry(WithEntry(dirs, t, newName, e), s, name);
    if e.kind == Directory && e.ino in linked then linked[e.ino := linked[e.ino].(parent := Some(t))] else linked
  }

  function Commit(dirs: Dirs, s: nat, name: string, t: nat, newName: string): Result<Dirs>
    requires s in dirs && t in dirs
  {
    if name !in dirs[s].entries then Err(ENOENT)
    else
      var e := dirs[s].entries[name];
      match Replace(dirs, s, t, newName, e.kind)
      case Err(error) => Err(error)
      case Ok(cleared) => Ok(Move(cleared, s, name, t, newName, e))
  }
}
