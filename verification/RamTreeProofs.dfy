/** Every operation keeps one tree, and exactly when a rename that raced with a removal does. */
module RamTreeProofs {
  import opened Outcomes
  import opened RamTree

  // ---- create, unlink, rmdir -----------------------------------------------------------------------

  /** No parent link changes and no directory disappears. */
  ghost predicate SameLinks(dirs: Dirs, dirs': Dirs) {
    forall x :: x in dirs ==> x in dirs' && dirs'[x].parent == dirs[x].parent
  }

  lemma RootedAll(dirs: Dirs, dirs': Dirs, d: nat)
    requires Tree(dirs) && SameLinks(dirs, dirs') && d in dirs
    ensures Rooted(dirs', d)
  {
    assert DirOk(dirs, d);
    RootedSame(dirs, dirs', d);
  }

  lemma CreateKeeps(dirs: Dirs, ino: nat, d: nat, name: string, kind: Kind, dirs': Dirs)
    requires Tree(dirs) && d in dirs && ino !in dirs && Create(dirs, ino, d, name, kind) == Ok(dirs')
    ensures Tree(dirs')
  {
    forall p, n, c
      ensures Names(dirs', p, n, c) <==> Names(dirs, p, n, c) || (kind == Directory && p == d && n == name && c == ino)
    {
    }
    forall x | x in dirs'
      ensures DirOk(dirs', x) && EntriesOk(dirs', x)
    {
      assert DirOk(dirs, d) && EntriesOk(dirs, d);
      RootedAll(dirs, dirs', d);
      if x in dirs {
        assert DirOk(dirs, x) && EntriesOk(dirs, x);
        RootedAll(dirs, dirs', x);
        CreatedOk(dirs, ino, d, name, kind, dirs', x);
      } else {
        WithinStep(dirs', x, ROOT);
        assert Names(dirs', d, name, ino);
      }
    }
  }

  lemma CreatedOk(dirs: Dirs, ino: nat, d: nat, name: string, kind: Kind, dirs': Dirs, x: nat)
    requires d in dirs && ino !in dirs && x in dirs && Create(dirs, ino, d, name, kind) == Ok(dirs')
    requires forall p, n, c ::
          Names(dirs', p, n, c) <==> Names(dirs, p, n, c) || (kind == Directory && p == d && n == name && c == ino)
    requires DirOk(dirs, x) && EntriesOk(dirs, x) && Rooted(dirs', x)
    ensures DirOk(dirs', x) && EntriesOk(dirs', x)
  {
    if dirs[x].parent.Some? && !dirs[x].dead {
      var n :| Names(dirs, dirs[x].parent.value, n, x);
      assert Names(dirs', dirs[x].parent.value, n, x);
    }
  }

  lemma UnlinkKeeps(dirs: Dirs, d: nat, name: string, dirs': Dirs)
    requires Tree(dirs) && d in dirs && Unlink(dirs, d, name) == Ok(dirs')
    ensures Tree(dirs')
  {
    forall p, n, c
      ensures Names(dirs', p, n, c) <==> Names(dirs, p, n, c)
    {
    }
    forall x | x in dirs'
      ensures DirOk(dirs', x) && EntriesOk(dirs', x)
    {
      assert DirOk(dirs, x) && EntriesOk(dirs, x);
      RootedAll(dirs, dirs', x);
      if dirs[x].parent.Some? && !dirs[x].dead {
        var n :| Names(dirs, dirs[x].parent.value, n, x);
        assert Names(dirs', dirs[x].parent.value, n, x);
      }
    }
  }

  lemma RmdirKeeps(dirs: Dirs, d: nat, name: string, dirs': Dirs)
    requires Tree(dirs) && d in dirs && Rmdir(dirs, d, name) == Ok(dirs')
    ensures Tree(dirs') && dirs'[dirs[d].entries[name].ino].dead
  {
    var c := dirs[d].entries[name].ino;
    assert Names(dirs, d, name, c) && EntriesOk(dirs, d) && DirOk(dirs, c);
    ParentNotWithin(dirs, c);
    forall p, n, y
      ensures Names(dirs', p, n, y) <==> Names(dirs, p, n, y) && !(p == d && n == name)
    {
    }
    forall x | x in dirs'
      ensures DirOk(dirs', x) && EntriesOk(dirs', x)
    {
      RootedAll(dirs, dirs', x);
      RemovedOk(dirs, d, name, c, dirs', x);
    }
  }

  lemma RemovedOk(dirs: Dirs, d: nat, name: string, c: nat, dirs': Dirs, x: nat)
    requires Tree(dirs) && Names(dirs, d, name, c) && c in dirs && c != d && Rmdir(dirs, d, name) == Ok(dirs')
    requires x in dirs
    requires forall p, n, y :: Names(dirs', p, n, y) <==> Names(dirs, p, n, y) && !(p == d && n == name)
    requires Rooted(dirs', x)
    ensures DirOk(dirs', x) && EntriesOk(dirs', x)
  {
    assert DirOk(dirs, x) && EntriesOk(dirs, x) && EntriesOk(dirs, d);
    assert forall n, y :: Names(dirs', x, n, y) ==> y != c;
    if x != c && dirs[x].parent.Some? && !dirs[x].dead {
      var n :| Names(dirs, dirs[x].parent.value, n, x);
      assert Names(dirs', dirs[x].parent.value, n, x);
    }
  }

  // ---- rename --------------------------------------------------------------------------------------------

  /** A file moves; no directory entry changes. */
  lemma FileMoves(dirs: Dirs, s: nat, name: string, t: nat, newName: string, dirs': Dirs)
    requires Tree(dirs) && s in dirs && t in dirs && name in dirs[s].entries && dirs[s].entries[name].kind != Directory
    requires Commit(dirs, s, name, t, newName) == Ok(dirs') && !dirs[t].dead
    ensures Tree(dirs')
  {
    forall p, n, c
      ensures Names(dirs', p, n, c) <==> Names(dirs, p, n, c)
    {
    }
    forall x | x in dirs'
      ensures DirOk(dirs', x) && EntriesOk(dirs', x)
    {
      assert DirOk(dirs, x) && EntriesOk(dirs, x);
      RootedAll(dirs, dirs', x);
      if dirs[x].parent.Some? && !dirs[x].dead {
        var n :| Names(dirs, dirs[x].parent.value, n, x);
        assert Names(dirs', dirs[x].parent.value, n, x);
      }
    }
  }

  /** What a committed move of directory `c` leaves, directory by directory; `x` is the directory
      that gave way, if any. */
  ghost predicate DirMoved(dirs: Dirs, s: nat, name: string, t: nat, newName: string, c: nat, x: Option<nat>,
                           dirs': Dirs) {
    && dirs'.Keys == dirs.Keys && Relinked(dirs, dirs', c, t)
    && (forall d :: d in dirs ==> dirs'[d].dead == (dirs[d].dead || Some(d) == x))
    && (forall d :: d in dirs && d != s && d != t ==> dirs'[d].entries == dirs[d].entries)
    && forall p, n, y {:trigger Names(dirs', p, n, y)} :: Names(dirs', p, n, y) <==>
         || (p == t && n == newName && y == c)
         || (Names(dirs, p, n, y) && !(p == s && n == name) && !(p == t && n == newName))
  }

  /** The facts a move relies on. */
  ghost predicate CanMove(dirs: Dirs, s: nat, name: string, t: nat, newName: string, c: nat, x: Option<nat>) {
    && Tree(dirs) && t in dirs && Names(dirs, s, name, c) && !Within(dirs, t, c) && !(s == t && name == newName)
    && (x.Some? ==> Names(dirs, t, newName, x.value) && x.value != s)
    && (x.Some? ==> x.value in dirs && dirs[x.value].entries == map[])
    && (x.None? ==> forall y :: !Names(dirs, t, newName, y))
  }

  /** Who is who. */
  lemma MoveDistinct(dirs: Dirs, s: nat, name: string, t: nat, newName: string, c: nat, x: Option<nat>)
    requires CanMove(dirs, s, name, t, newName, c, x)
    ensures c in dirs && c != s && c != t && c != ROOT && dirs[c].parent == Some(s) && !dirs[c].dead && !dirs[s].dead
    ensures x.Some? ==> x.value != c && x.value != t && x.value != s && dirs[x.value].parent == Some(t)
  {
    assert EntriesOk(dirs, s) && EntriesOk(dirs, t) && DirOk(dirs, s);
    assert DirOk(dirs, c);
    ParentNotWithin(dirs, c);
    assert Up(dirs, t, 0) == Some(t);
    if x.Some? {
      assert DirOk(dirs, x.value);
      ParentNotWithin(dirs, x.value);
    }
  }

  lemma DirMoves(dirs: Dirs, s: nat, name: string, t: nat, newName: string, c: nat, x: Option<nat>, dirs': Dirs)
    requires CanMove(dirs, s, name, t, newName, c, x) && DirMoved(dirs, s, name, t, newName, c, x, dirs')
    requires !dirs[t].dead
    ensures Tree(dirs')
  {
    MoveDistinct(dirs, s, name, t, newName, c, x);
    forall d | d in dirs'
      ensures DirOk(dirs', d) && EntriesOk(dirs', d)
    {
      MovedEntries(dirs, s, name, t, newName, c, x, dirs', d);
      MovedDir(dirs, s, name, t, newName, c, x, dirs', d);
    }
  }

  lemma MovedEntries(dirs: Dirs, s: nat, name: string, t: nat, newName: string, c: nat, x: Option<nat>, dirs': Dirs,
                     p: nat)
    requires CanMove(dirs, s, name, t, newName, c, x) && DirMoved(dirs, s, name, t, newName, c, x, dirs') && p in dirs
    requires c in dirs && c != s && c != t && dirs[c].parent == Some(s) && !dirs[c].dead
    requires (x.Some? ==> x.value != c && dirs[x.value].parent == Some(t))
    ensures EntriesOk(dirs', p)
  {
    assert EntriesOk(dirs, p) && EntriesOk(dirs, s) && EntriesOk(dirs, t);
    forall n, y | Names(dirs', p, n, y)
      ensures y in dirs' && !dirs'[y].dead && dirs'[y].parent == Some(p)
      ensures forall other :: Names(dirs', p, other, y) ==> other == n
    {
      if !(p == t && n == newName) {
        assert Names(dirs, p, n, y);
        assert y != c && Some(y) != x;
      }
    }
  }

  lemma MovedDir(dirs: Dirs, s: nat, name: string, t: nat, newName: string, c: nat, x: Option<nat>, dirs': Dirs, d: nat)
    requires CanMove(dirs, s, name, t, newName, c, x) && DirMoved(dirs, s, name, t, newName, c, x, dirs') && d in dirs
    requires !dirs[t].dead
    requires c in dirs && c != s && c != t && c != ROOT && dirs[c].parent == Some(s) && !dirs[c].dead && !dirs[s].dead
    requires x.Some? ==> x.value != c && x.value != t && x.value != s && dirs[x.value].parent == Some(t)
    ensures DirOk(dirs', d)
  {
    assert DirOk(dirs, d) && DirOk(dirs, t);
    assert Rooted(dirs', d) by {
      var n: nat :| Up(dirs, d, n) == Some(ROOT);
      MovedRooted(dirs, dirs', c, t, d, n);
    }
    if d == c {
      assert Names(dirs', t, newName, c);
    } else if dirs[d].parent.Some? && !dirs'[d].dead {
      var p := dirs[d].parent.value;
      var n :| Names(dirs, p, n, d);
      assert Names(dirs', p, n, d);
    }
  }

  /** The committed move, in those terms. */
  lemma CommitMoves(dirs: Dirs, s: nat, name: string, t: nat, newName: string, c: nat,
                    dirs': Dirs) returns (x: Option<nat>)
    requires Tree(dirs) && t in dirs && Names(dirs, s, name, c) && !Within(dirs, t, c) && !(s == t && name == newName)
    requires Commit(dirs, s, name, t, newName) == Ok(dirs')
    ensures CanMove(dirs, s, name, t, newName, c, x) && DirMoved(dirs, s, name, t, newName, c, x, dirs')
  {
    x := if newName in dirs[t].entries then Some(dirs[t].entries[newName].ino) else None;
    assert EntriesOk(dirs, s);
    assert CanMove(dirs, s, name, t, newName, c, x);
    MoveDistinct(dirs, s, name, t, newName, c, x);
    ClearedMoves(dirs, s, name, t, newName, c, x, if x.Some? then Killed(dirs, x.value) else dirs, dirs');
  }

  lemma ClearedMoves(dirs: Dirs, s: nat, name: string, t: nat, newName: string, c: nat, x: Option<nat>, cleared: Dirs,
                     dirs': Dirs)
    requires s in dirs && t in dirs && c in dirs && c != s && c != t && !(s == t && name == newName)
    requires x.Some? ==> x.value in dirs
    requires cleared == (if x.Some? then Killed(dirs, x.value) else dirs)
    requires dirs' == Move(cleared, s, name, t, newName, Entry(Directory, c))
    ensures DirMoved(dirs, s, name, t, newName, c, x, dirs')
  {
    MoveEntries(cleared, s, name, t, newName, Entry(Directory, c), dirs');
    MoveNames(cleared, s, name, t, newName, c, dirs');
    forall p, n, y
      ensures Names(cleared, p, n, y) <==> Names(dirs, p, n, y)
    {
    }
  }

  lemma MoveNames(dirs: Dirs, s: nat, name: string, t: nat, newName: string, c: nat, dirs': Dirs)
    requires s in dirs && t in dirs && c in dirs && c != s && c != t && !(s == t && name == newName)
    requires dirs' == Move(dirs, s, name, t, newName, Entry(Directory, c))
    ensures forall p, n, y {:trigger Names(dirs', p, n, y)} :: Names(dirs', p, n, y) <==>
      || (p == t && n == newName && y == c)
      || (Names(dirs, p, n, y) && !(p == s && n == name) && !(p == t && n == newName))
  {
  }

  /** A rename that is committed into a live directory, clear of the subtree it moves, keeps the
      tree; into a directory that died since it was checked, it does not. */
  lemma CommitKeepsTree(dirs: Dirs, s: nat, name: string, t: nat, newName: string, dirs': Dirs)
    requires Tree(dirs) && s in dirs && t in dirs && !(s == t && name == newName)
    requires Commit(dirs, s, name, t, newName) == Ok(dirs')
    requires forall c :: Names(dirs, s, name, c) ==> !Within(dirs, t, c)
    ensures Tree(dirs') <==> !dirs[t].dead
  {
    var e := dirs[s].entries[name];
    if dirs[t].dead {
      DeadTakesEntry(dirs, s, name, t, newName, dirs');
    } else if e.kind == Directory {
      assert Names(dirs, s, name, e.ino);
      var x := CommitMoves(dirs, s, name, t, newName, e.ino, dirs');
      DirMoves(dirs, s, name, t, newName, e.ino, x, dirs');
    } else {
      FileMoves(dirs, s, name, t, newName, dirs');
    }
  }

  // ---- what an operation changes -------------------------------------------------------------------------

  function EntryAt(dirs: Dirs, d: nat, name: string): Option<Entry>
    requires d in dirs
  {
    if name in dirs[d].entries then Some(dirs[d].entries[name]) else None
  }

  /** One entry of one directory becomes `e`; every other entry and every link of the directories
      there were stays, and so does every mark but that of `dead`. */
  ghost predicate OneEntry(dirs: Dirs, dirs': Dirs, d: nat, name: string, e: Option<Entry>, dead: Option<nat>) {
    && dirs.Keys <= dirs'.Keys
    && (forall x, n {:trigger EntryAt(dirs', x, n)} :: x in dirs ==>
          EntryAt(dirs', x, n) == if x == d && n == name then e else EntryAt(dirs, x, n))
    && forall x {:trigger dirs'[x]} :: x in dirs ==>
         dirs'[x].parent == dirs[x].parent && dirs'[x].dead == (dirs[x].dead || Some(x) == dead)
  }

  /** The replaced directory, if a directory replaces one. */
  ghost predicate GivesWay(dirs: Dirs, e: Entry, t: nat, newName: string, x: nat)
    requires t in dirs
  {
    e.kind == Directory && EntryAt(dirs, t, newName) == Some(Entry(Directory, x))
  }

  /** The entry is at its new name and gone from the old one; no other entry changes; a directory's
      parent link follows it; a directory it replaced is dead. */
  ghost predicate Renamed(dirs: Dirs, dirs': Dirs, s: nat, name: string, t: nat, newName: string) {
    && s in dirs && t in dirs && name in dirs[s].entries && dirs'.Keys == dirs.Keys
    && var e := dirs[s].entries[name];
       && (forall x, n {:trigger EntryAt(dirs', x, n)} :: x in dirs ==>
             EntryAt(dirs', x, n) ==
             if x == t && n == newName then Some(e) else if x == s && n == name then None else EntryAt(dirs, x, n))
       && (forall x {:trigger dirs'[x]} :: x in dirs ==>
             && dirs'[x].parent == (if e == Entry(Directory, x) then Some(t) else dirs[x].parent)
             && (dirs'[x].dead <==> dirs[x].dead || GivesWay(dirs, e, t, newName, x)))
  }

  lemma CommitRenames(dirs: Dirs, s: nat, name: string, t: nat, newName: string, dirs': Dirs)
    requires s in dirs && t in dirs && !(s == t && name == newName) && Commit(dirs, s, name, t, newName) == Ok(dirs')
    ensures Renamed(dirs, dirs', s, name, t, newName)
  {
    var e := dirs[s].entries[name];
    var cleared := Replace(dirs, s, t, newName, e.kind).value;
    ReplaceClears(dirs, s, t, newName, e, cleared);
    MoveEntries(cleared, s, name, t, newName, e, dirs');
    forall x, n | x in dirs
      ensures EntryAt(dirs', x, n) ==
              if x == t && n == newName then Some(e) else if x == s && n == name then None else EntryAt(dirs, x, n)
    {
      assert EntryAt(cleared, x, n) == EntryAt(dirs, x, n);
    }
  }

  lemma MoveEntries(dirs: Dirs, s: nat, name: string, t: nat, newName: string, e: Entry, dirs': Dirs)
    requires s in dirs && t in dirs && !(s == t && name == newName) && dirs' == Move(dirs, s, name, t, newName, e)
    ensures dirs'.Keys == dirs.Keys
    ensures forall x, n {:trigger EntryAt(dirs', x, n)} :: x in dirs ==>
      EntryAt(dirs', x, n) ==
      if x == t && n == newName then Some(e) else if x == s && n == name then None else EntryAt(dirs, x, n)
    ensures forall x {:trigger dirs'[x]} :: x in dirs ==>
      dirs'[x].parent == (if e == Entry(Directory, x) then Some(t) else dirs[x].parent) && dirs'[x].dead == dirs[x].dead
  {
    var linked := WithoutEntry(WithEntry(dirs, t, newName, e), s, name);
    assert linked.Keys == dirs.Keys;
    forall x, n | x in dirs
      ensures EntryAt(linked, x, n) ==
              if x == t && n == newName then Some(e) else if x == s && n == name then None else EntryAt(dirs, x, n)
    {
    }
  }

  lemma ReplaceClears(dirs: Dirs, s: nat, t: nat, newName: string, e: Entry, cleared: Dirs)
    requires t in dirs && Replace(dirs, s, t, newName, e.kind) == Ok(cleared)
    ensures cleared.Keys == dirs.Keys
    ensures forall x {:trigger cleared[x]} :: x in dirs ==>
              && cleared[x].entries == dirs[x].entries && cleared[x].parent == dirs[x].parent
              && (cleared[x].dead <==> dirs[x].dead || GivesWay(dirs, e, t, newName, x))
  {
  }

  // ---- when an operation succeeds ------------------------------------------------------------------------

  predicate NameOk(name: string) {
    0 < |name| <= 255 && '/' !in name && name != "." && name != ".."
  }

  lemma NameChecked(name: string)
    ensures CheckName(name).None? <==> NameOk(name)
    ensures CheckName(name) == Some(ENOENT) <==> name == "" || '/' in name
    ensures CheckName(name) == Some(ENAMETOOLONG) <==> |name| > 255 && '/' !in name
    ensures CheckName(name) == Some(EINVAL) <==> name == "." || name == ".."
  {
  }

  predicate IsDirectory(e: Option<Entry>) {
    e.Some? && e.value.kind == Directory
  }

  predicate IsOther(e: Option<Entry>) {
    e.Some? && e.value.kind != Directory
  }

  /** The entry names a directory that holds nothing. */
  ghost predicate NamesEmpty(dirs: Dirs, e: Option<Entry>) {
    IsDirectory(e) && e.value.ino in dirs && forall n :: EntryAt(dirs, e.value.ino, n).None?
  }

  /** What lies at the new name lets the entry have it. */
  ghost predicate Yields(dirs: Dirs, s: nat, name: string, t: nat, newName: string)
    requires s in dirs && t in dirs
  {
    var (e, x) := (EntryAt(dirs, s, name), EntryAt(dirs, t, newName));
    x.None? || (IsOther(e) && IsOther(x)) || (IsDirectory(e) && NamesEmpty(dirs, x) && x.value.ino != s)
  }

  lemma EmptyMap(dirs: Dirs, d: nat)
    requires d in dirs
    ensures dirs[d].entries == map[] <==> forall n :: EntryAt(dirs, d, n).None?
  {
    if dirs[d].entries != map[] {
      var n :| n in dirs[d].entries;
      assert EntryAt(dirs, d, n).Some?;
    }
  }

  /** The locked part of a rename: when it goes through, and otherwise why not. */
  lemma CommitOutcome(dirs: Dirs, s: nat, name: string, t: nat, newName: string)
    requires s in dirs && t in dirs && EntryAt(dirs, s, name).Some?
    ensures var r := Commit(dirs, s, name, t, newName);
            var (e, x) := (EntryAt(dirs, s, name), EntryAt(dirs, t, newName));
      && (r.Ok? <==> Yields(dirs, s, name, t, newName))
      && (r == Err(ENOTDIR) <==> IsDirectory(e) && IsOther(x))
      && (r == Err(EISDIR) <==> IsOther(e) && IsDirectory(x))
      && (r == Err(ENOTEMPTY) <==> IsDirectory(e) && IsDirectory(x) && !(NamesEmpty(dirs, x) && x.value.ino != s))
  {
    var x := EntryAt(dirs, t, newName);
    if x.Some? && x.value.ino in dirs {
      EmptyMap(dirs, x.value.ino);
    }
  }

  lemma RmdirOutcome(dirs: Dirs, d: nat, name: string)
    requires Tree(dirs) && d in dirs
    ensures var (r, e) := (Rmdir(dirs, d, name), EntryAt(dirs, d, name));
      && (r.Ok? <==> NamesEmpty(dirs, e))
      && (r == Err(ENOENT) <==> e.None?) && (r == Err(ENOTDIR) <==> IsOther(e))
      && (r == Err(ENOTEMPTY) <==> IsDirectory(e) && !NamesEmpty(dirs, e))
  {
    var e := EntryAt(dirs, d, name);
    if IsDirectory(e) {
      assert EntriesOk(dirs, d) && Names(dirs, d, name, e.value.ino);
      EmptyMap(dirs, e.value.ino);
    }
  }

  lemma DeadTakesEntry(dirs: Dirs, s: nat, name: string, t: nat, newName: string, dirs': Dirs)
    requires Tree(dirs) && s in dirs && t in dirs && !(s == t && name == newName)
    requires Commit(dirs, s, name, t, newName) == Ok(dirs')
    requires dirs[t].dead
    ensures !Tree(dirs')
  {
    assert DirOk(dirs, t) && DirOk(dirs, s);
    assert t in dirs' && dirs'[t].dead && newName in dirs'[t].entries;
    assert !DirOk(dirs', t);
  }

  // ---- a rename and what happens meanwhile -----------------------------------------------------------------

  /** The checks of `rename` before it takes the entry locks: `false` when there is nothing to do. */
  ghost function Check(dirs: Dirs, s: nat, name: string, t: nat, newName: string): Result<bool>
    requires s in dirs && t in dirs
  {
    if CheckName(newName).Some? then Err(CheckName(newName).value)
    else if s == t && name == newName then (if name in dirs[s].entries then Ok(false) else Err(ENOENT))
    else if dirs[t].dead then Err(ENOENT)
    else if name !in dirs[s].entries then Err(ENOENT)
    else if dirs[s].entries[name].kind == Directory && Within(dirs, t, dirs[s].entries[name].ino) then Err(EINVAL)
    else Ok(true)
  }

  /** What other tasks may do while a rename is between its checks and its commit. */
  datatype Other =
    | MakeFile(d: nat, name: string)
    | MakeDir(d: nat, name: string)
    | Remove(d: nat, name: string)
    | RemoveDir(d: nat, name: string)

  function Outcome(dirs: Dirs, ino: nat, o: Other): Result<Dirs>
    requires o.d in dirs
  {
    match o
    case MakeFile(d, name) => Create(dirs, ino, d, name, File)
    case MakeDir(d, name) => Create(dirs, ino, d, name, Directory)
    case Remove(d, name) => Unlink(dirs, d, name)
    case RemoveDir(d, name) => Rmdir(dirs, d, name)
  }

  /** Each operation takes effect or fails; inode numbers are not reused. */
  ghost predicate Ran(dirs: Dirs, ino: nat, others: seq<Other>, dirs': Dirs)
    decreases |others|
  {
    if others == [] then dirs' == dirs
    else
      && others[0].d in dirs
      && Ran(if Outcome(dirs, ino, others[0]).Ok? then Outcome(dirs, ino, others[0]).value else dirs, ino + 1,
          others[1..], dirs')
  }

  ghost predicate Numbered(dirs: Dirs, ino: nat) {
    forall d :: d in dirs ==> d < ino
  }

  /** The directory to be moved is not above the target. */
  ghost predicate Clear(dirs: Dirs, s: nat, name: string, t: nat) {
    s in dirs && t in dirs && forall c :: Names(dirs, s, name, c) ==> !Within(dirs, t, c)
  }

  lemma {:induction false} AncestorsExist(dirs: Dirs, d: nat, n: nat)
    requires Tree(dirs) && d in dirs && Up(dirs, d, n).Some?
    ensures Up(dirs, d, n).value in dirs
    decreases n
  {
    assert DirOk(dirs, d);
    if n > 0 {
      AncestorsExist(dirs, dirs[d].parent.value, n - 1);
    }
  }

  /** Ancestors stay what they are: only a rename changes parent links. */
  lemma WithinStays(dirs: Dirs, dirs': Dirs, t: nat, c: nat)
    requires Tree(dirs) && SameLinks(dirs, dirs') && t in dirs && Within(dirs', t, c)
    ensures c in dirs && Within(dirs, t, c)
  {
    var n: nat :| Up(dirs', t, n) == Some(c);
    UpBack(dirs, dirs', t, n);
    AncestorsExist(dirs, t, n);
  }

  lemma {:induction false} UpBack(dirs: Dirs, dirs': Dirs, d: nat, n: nat)
    requires Tree(dirs) && SameLinks(dirs, dirs') && d in dirs
    ensures Up(dirs, d, n) == Up(dirs', d, n)
    decreases n
  {
    assert DirOk(dirs, d);
    if n > 0 && dirs[d].parent.Some? {
      UpBack(dirs, dirs', dirs[d].parent.value, n - 1);
    }
  }

  lemma OtherKeeps(dirs: Dirs, ino: nat, o: Other, dirs': Dirs, s: nat, name: string, t: nat)
    requires Tree(dirs) && Numbered(dirs, ino) && o.d in dirs && Outcome(dirs, ino, o) == Ok(dirs')
    requires Clear(dirs, s, name, t)
    ensures Tree(dirs') && Numbered(dirs', ino + 1) && Clear(dirs', s, name, t)
  {
    OtherClear(dirs, ino, o, dirs', s, name, t);
    match o
    case MakeFile(d, n) => CreateKeeps(dirs, ino, d, n, File, dirs');
    case MakeDir(d, n) => CreateKeeps(dirs, ino, d, n, Directory, dirs');
    case Remove(d, n) => UnlinkKeeps(dirs, d, n, dirs');
    case RemoveDir(d, n) => RmdirKeeps(dirs, d, n, dirs');
  }

  lemma OtherClear(dirs: Dirs, ino: nat, o: Other, dirs': Dirs, s: nat, name: string, t: nat)
    requires Tree(dirs) && Numbered(dirs, ino) && o.d in dirs && Outcome(dirs, ino, o) == Ok(dirs')
    requires Clear(dirs, s, name, t)
    ensures Clear(dirs', s, name, t)
  {
    assert SameLinks(dirs, dirs');
    forall c | Names(dirs', s, name, c)
      ensures !Within(dirs', t, c)
    {
      if c in dirs {
        assert Names(dirs, s, name, c);
        assert !Within(dirs, t, c);
      }
      if Within(dirs', t, c) {
        WithinStays(dirs, dirs', t, c);
      }
    }
  }

  lemma {:induction false} OthersKeep(dirs: Dirs, ino: nat, others: seq<Other>, dirs': Dirs, s: nat, name: string,
                                      t: nat)
    requires Tree(dirs) && Numbered(dirs, ino) && Ran(dirs, ino, others, dirs') && Clear(dirs, s, name, t)
    ensures Tree(dirs') && Clear(dirs', s, name, t)
    decreases |others|
  {
    if others != [] {
      var r := Outcome(dirs, ino, others[0]);
      if r.Ok? {
        OtherKeeps(dirs, ino, others[0], r.value, s, name, t);
        OthersKeep(r.value, ino + 1, others[1..], dirs', s, name, t);
      } else {
        OthersKeep(dirs, ino + 1, others[1..], dirs', s, name, t);
      }
    }
  }

  /** Whatever other tasks create and remove between the checks of a rename and its commit, the
      commit keeps the tree exactly when the target directory has not been removed meanwhile. */
  lemma RenameMeanwhile(dirs: Dirs, ino: nat, s: nat, name: string, t: nat, newName: string, others: seq<Other>,
                        later: Dirs, dirs': Dirs)
    requires Tree(dirs) && Numbered(dirs, ino) && s in dirs && t in dirs && Check(dirs, s, name, t, newName) == Ok(true)
    requires Ran(dirs, ino, others, later) && s in later && t in later
    requires Commit(later, s, name, t, newName) == Ok(dirs')
    ensures Tree(dirs') <==> !later[t].dead
  {
    OthersKeep(dirs, ino, others, later, s, name, t);
    CommitKeepsTree(later, s, name, t, newName, dirs');
  }

  /** It can be removed meanwhile: the check is not made again under the locks. */
  lemma RenameIntoRemoved() returns (dirs: Dirs, later: Dirs, dirs': Dirs)
    ensures Tree(dirs) && ROOT in dirs && 2 in dirs && Check(dirs, ROOT, "f", 2, "g") == Ok(true)
    ensures Ran(dirs, 4, [RemoveDir(ROOT, "d")], later) && ROOT in later && 2 in later
    ensures Commit(later, ROOT, "f", 2, "g") == Ok(dirs') && !Tree(dirs')
  {
    var (d, f) := (Entry(Directory, 2), Entry(File, 3));
    dirs := map[ROOT := Dir(None, map["d" := d, "f" := f], false), 2 := Dir(Some(ROOT), map[], false)];
    SmallTree(dirs);
    later := RemovedD(dirs, f);
    dirs' := Move(later, ROOT, "f", 2, "g", f);
    assert dirs'[2].dead && "g" in dirs'[2].entries;
    assert !DirOk(dirs', 2);
  }

  lemma RemovedD(dirs: Dirs, f: Entry) returns (later: Dirs)
    requires dirs == map[ROOT := Dir(None, map["d" := Entry(Directory, 2), "f" := f], false),
        2 := Dir(Some(ROOT), map[], false)]
    ensures Ran(dirs, 4, [RemoveDir(ROOT, "d")], later) && ROOT in later && 2 in later
    ensures later[2] == Dir(Some(ROOT), map[], true)
    ensures "f" in later[ROOT].entries && later[ROOT].entries["f"] == f
  {
    later := WithoutEntry(Killed(dirs, 2), ROOT, "d");
    assert Outcome(dirs, 4, RemoveDir(ROOT, "d")) == Ok(later);
    assert [RemoveDir(ROOT, "d")][1..] == [];
    assert Ran(later, 5, [], later);
  }

  lemma SmallTree(dirs: Dirs)
    requires dirs == map[ROOT := Dir(None, map["d" := Entry(Directory, 2), "f" := Entry(File, 3)], false),
        2 := Dir(Some(ROOT), map[], false)]
    ensures Tree(dirs)
  {
    assert Up(dirs, ROOT, 0) == Some(ROOT) && Up(dirs, 2, 1) == Some(ROOT);
    assert Names(dirs, ROOT, "d", 2);
    assert DirOk(dirs, ROOT) && DirOk(dirs, 2) && EntriesOk(dirs, ROOT) && EntriesOk(dirs, 2);
  }
}
