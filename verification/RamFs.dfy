/** The in-memory filesystem: directory operations that keep one acyclic tree. */
module RamFs {
  import opened Outcomes
  import opened RamTree
  import opened RamTreeProofs

  class FileSystem {
    var dirs: Dirs
    var nextIno: nat

    ghost predicate Valid()
      reads this
    {
      Tree(dirs) && Numbered(dirs, nextIno)
    }

    constructor ()
      ensures Valid() && dirs == map[ROOT := Dir(None, map[], false)]
    {
      dirs, nextIno := map[ROOT := Dir(None, map[], false)], 2;
      new;
      assert Up(dirs, ROOT, 0) == Some(ROOT);
      assert DirOk(dirs, ROOT) && EntriesOk(dirs, ROOT);
    }

    method Lookup(d: nat, name: string) returns (r: Result<Entry>)
      requires d in dirs
      ensures r == if name in dirs[d].entries then Ok(dirs[d].entries[name]) else Err(ENOENT)
    {
      if name !in dirs[d].entries {
        return Err(ENOENT);
      }
      return Ok(dirs[d].entries[name]);
    }

    /** `is_within`: walks up until it meets `ancestor` or runs out of parents. */
    method IsWithin(d: nat, ancestor: nat) returns (within: bool)
      requires Valid() && d in dirs
      ensures within <==> Within(dirs, d, ancestor)
    {
      assert DirOk(dirs, d);
      var current := Some(d);
      ghost var left: nat :| Up(dirs, d, left) == Some(ROOT);
      while current.Some?
        invariant current.Some? ==> current.value in dirs && Up(dirs, current.value, left) == Some(ROOT)
        invariant Within(dirs, d, ancestor) <==> current.Some? && Within(dirs, current.value, ancestor)
        decreases current.Some?, left
      {
        assert DirOk(dirs, current.value) && Up(dirs, current.value, 0) == current;
        if current.value == ancestor {
          return true;
        }
        StepUp(dirs, current.value, ancestor, left);
        if dirs[current.value].parent.Some? {
          left := left - 1;
        }
        current := dirs[current.value].parent;
      }
      return false;
    }

    method CreateEntry(d: nat, name: string, kind: Kind) returns (r: Result<nat>)
      requires Valid() && d in dirs
      modifies this
      ensures Valid()
      ensures r.Ok? ==> Create(old(dirs), r.value, d, name, kind) == Ok(dirs) && r.value !in old(dirs)
      ensures nextIno == old(nextIno) + (if r.Ok? then 1 else 0) && (r.Ok? ==> r.value == old(nextIno))
      ensures r.Err? ==> dirs == old(dirs) && Create(dirs, old(nextIno), d, name, kind) == Err(r.error)
      ensures r.Ok? <==> NameOk(name) && !old(dirs)[d].dead && EntryAt(old(dirs), d, name).None? && kind != CharDevice
      ensures r == Err(EEXIST) <==> NameOk(name) && !old(dirs)[d].dead && EntryAt(old(dirs), d, name).Some?
      ensures r == Err(ENOENT) <==> name == "" || '/' in name || (NameOk(name) && old(dirs)[d].dead)
      ensures r.Ok? ==> OneEntry(old(dirs), dirs, d, name, Some(Entry(kind, r.value)), None)
      ensures r.Ok? && kind == Directory ==> r.value in dirs && dirs[r.value] == Dir(Some(d), map[], false)
    {
      NameChecked(name);
      var created := Create(dirs, nextIno, d, name, kind);
      if created.Err? {
        return Err(created.error);
      }
      CreateKeeps(dirs, nextIno, d, name, kind, created.value);
      dirs := created.value;
      nextIno := nextIno + 1;
      return Ok(nextIno - 1);
    }

    method UnlinkEntry(d: nat, name: string) returns (r: Result<()>)
      requires Valid() && d in dirs
      modifies this`dirs
      ensures Valid() && (r.Err? ==> dirs == old(dirs) && Unlink(dirs, d, name) == Err(r.error))
      ensures r.Ok? <==> IsOther(EntryAt(old(dirs), d, name))
      ensures r == Err(ENOENT) <==> EntryAt(old(dirs), d, name).None?
      ensures r == Err(EISDIR) <==> IsDirectory(EntryAt(old(dirs), d, name))
      ensures r.Ok? ==> Unlink(old(dirs), d, name) == Ok(dirs) && OneEntry(old(dirs), dirs, d, name, None, None)
    {
      if name !in dirs[d].entries {
        return Err(ENOENT);
      }
      if dirs[d].entries[name].kind == Directory {
        return Err(EISDIR);
      }
      UnlinkKeeps(dirs, d, name, WithoutEntry(dirs, d, name));
      dirs := dirs[d := dirs[d].(entries := dirs[d].entries - {name})];
      return Ok(());
    }

    method RemoveDirectory(d: nat, name: string) returns (r: Result<()>)
      requires Valid() && d in dirs
      modifies this`dirs
      ensures Valid() && (r.Err? ==> dirs == old(dirs) && Rmdir(dirs, d, name) == Err(r.error))
      ensures r.Ok? <==> NamesEmpty(old(dirs), EntryAt(old(dirs), d, name))
      ensures r == Err(ENOENT) <==> EntryAt(old(dirs), d, name).None?
      ensures r == Err(ENOTDIR) <==> IsOther(EntryAt(old(dirs), d, name))
      ensures r.Err? ==> r.error in {ENOENT, ENOTDIR, ENOTEMPTY}
      ensures r.Ok? ==> Rmdir(old(dirs), d, name) == Ok(dirs) && old(dirs)[d].entries[name].ino in dirs
      ensures r.Ok? ==> OneEntry(old(dirs), dirs, d, name, None, Some(old(dirs)[d].entries[name].ino))
    {
      RmdirOutcome(dirs, d, name);
      if name !in dirs[d].entries {
        return Err(ENOENT);
      }
      var e := dirs[d].entries[name];
      if e.kind != Directory || e.ino !in dirs {
        return Err(ENOTDIR);
      }
      if dirs[e.ino].entries != map[] {
        return Err(ENOTEMPTY);
      }
      RmdirKeeps(dirs, d, name, WithoutEntry(Killed(dirs, e.ino), d, name));
      dirs := dirs[e.ino := dirs[e.ino].(dead := true)];
      dirs := dirs[d := dirs[d].(entries := dirs[d].entries - {name})];
      return Ok(());
    }

    /** `rename` with nothing happening in between: it moves the entry as checked, or changes
        nothing and says why. */
    method Rename(s: nat, name: string, t: nat, newName: string) returns (r: Result<()>)
      requires Valid() && s in dirs && t in dirs
      modifies this`dirs
      ensures Valid() && (r.Err? ==> dirs == old(dirs))
      ensures NameOk(newName) && s == t && name == newName ==> (r.Ok? <==> EntryAt(old(dirs), s, name).Some?)
      ensures NameOk(newName) && !(s == t && name == newName) ==>
        old(dirs)[t].dead || EntryAt(old(dirs), s, name).None? ==> r == Err(ENOENT)
      ensures Allowed(old(dirs), s, name, t, newName) ==> Decided(old(dirs), s, name, t, newName, r)
      ensures NameOk(newName) && IntoItself(old(dirs), s, name, t, newName) ==> r == Err(EINVAL)
      ensures old(Check(dirs, s, name, t, newName)).Err? ==> r == Err(old(Check(dirs, s, name, t, newName)).error)
      ensures old(Check(dirs, s, name, t, newName)) == Ok(false) ==> r.Ok? && dirs == old(dirs)
      ensures old(Check(dirs, s, name, t, newName)) == Ok(true) && r.Ok? ==>
            Renamed(old(dirs), dirs, s, name, t, newName)
      ensures old(Check(dirs, s, name, t, newName)) == Ok(true) ==>
        Commit(old(dirs), s, name, t, newName) == if r.Ok? then Ok(dirs) else Err(r.error)
    {
      NameChecked(newName);
      if CheckName(newName).Some? {
        return Err(CheckName(newName).value);
      }
      if s == t && name == newName {
        return if name in dirs[s].entries then Ok(()) else Err(ENOENT);
      }
      if dirs[t].dead || name !in dirs[s].entries {
        return Err(ENOENT);
      }
      var source := dirs[s].entries[name];
      if source.kind == Directory {
        var below := IsWithin(t, source.ino);
        if below {
          return Err(EINVAL);
        }
      }
      r := MoveEntry(s, name, t, newName);
    }

    method MoveEntry(s: nat, name: string, t: nat, newName: string) returns (r: Result<()>)
      requires Valid() && s in dirs && t in dirs && !(s == t && name == newName) && name in dirs[s].entries
      requires !dirs[t].dead
      requires Clear(dirs, s, name, t)
      modifies this`dirs
      ensures Valid() && (r.Err? ==> dirs == old(dirs)) && (r.Ok? ==> Renamed(old(dirs), dirs, s, name, t, newName))
      ensures Decided(old(dirs), s, name, t, newName, r)
      ensures Commit(old(dirs), s, name, t, newName) == if r.Ok? then Ok(dirs) else Err(r.error)
    {
      CommitOutcome(dirs, s, name, t, newName);
      var source := dirs[s].entries[name];
      var cleared := Replace(dirs, s, t, newName, source.kind);
      if cleared.Err? {
        return Err(cleared.error);
      }
      CommitKeepsTree(dirs, s, name, t, newName, Move(cleared.value, s, name, t, newName, source));
      CommitRenames(dirs, s, name, t, newName, Move(cleared.value, s, name, t, newName, source));
      dirs := Move(cleared.value, s, name, t, newName, source);
      return Ok(());
    }
  }

  /** The directory is to go into itself or below. */
  ghost predicate IntoItself(dirs: Dirs, s: nat, name: string, t: nat, newName: string)
    requires s in dirs && t in dirs
  {
    && !(s == t && name == newName) && !dirs[t].dead
    && IsDirectory(EntryAt(dirs, s, name)) && Within(dirs, t, EntryAt(dirs, s, name).value.ino)
  }

  /** Nothing but what lies at the new name can stand in the way. */
  ghost predicate Allowed(dirs: Dirs, s: nat, name: string, t: nat, newName: string)
    requires s in dirs && t in dirs
  {
    && NameOk(newName) && !(s == t && name == newName) && !dirs[t].dead && EntryAt(dirs, s, name).Some?
    && !IntoItself(dirs, s, name, t, newName)
  }

  /** That decides: it is free, or both are no directories, or an empty one makes room for another. */
  ghost predicate Decided(dirs: Dirs, s: nat, name: string, t: nat, newName: string, r: Result<()>)
    requires s in dirs && t in dirs
  {
    var (e, x) := (EntryAt(dirs, s, name), EntryAt(dirs, t, newName));
    && (r.Ok? <==> Yields(dirs, s, name, t, newName))
    && (r == Err(ENOTDIR) <==> IsDirectory(e) && IsOther(x))
    && (r == Err(EISDIR) <==> IsOther(e) && IsDirectory(x))
    && (r == Err(ENOTEMPTY) <==> IsDirectory(e) && IsDirectory(x) && !(NamesEmpty(dirs, x) && x.value.ino != s))
  }

  /** The walk gets closer to the root. */
  lemma StepUp(dirs: Dirs, d: nat, a: nat, left: nat)
    requires Tree(dirs) && d in dirs && Up(dirs, d, left) == Some(ROOT) && d != a
    ensures dirs[d].parent.Some? ==>
      left > 0 && dirs[d].parent.value in dirs && Up(dirs, dirs[d].parent.value, left - 1) == Some(ROOT)
    ensures Within(dirs, d, a) <==> dirs[d].parent.Some? && Within(dirs, dirs[d].parent.value, a)
  {
    assert DirOk(dirs, d);
    if dirs[d].parent.Some? {
      WithinStep(dirs, d, a);
    } else if Within(dirs, d, a) {
      TopIsLast(dirs, d, a);
    }
  }

  lemma TopIsLast(dirs: Dirs, d: nat, a: nat)
    requires d in dirs && dirs[d].parent.None? && Within(dirs, d, a)
    ensures d == a
  {
    var n: nat :| Up(dirs, d, n) == Some(a);
  }
}
