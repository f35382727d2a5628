/** Directories and file contents together. A file lives exactly as long as a directory entry names it
    or a handle has it open, and the bytes it takes are counted exactly that long.
  */
module RamVolume {
  import opened Outcomes
  import opened Bytes
  import opened RamTree
  import opened RamTreeProofs
  import RamFs
  import RamFiles

  /** A file entry with this inode number. */
  ghost predicate FileAt(dirs: Dirs, d: nat, n: string, i: nat) {
    d in dirs && n in dirs[d].entries && dirs[d].entries[n] == Entry(Kind.File, i)
  }

  ghost predicate Named(dirs: Dirs, i: nat) {
    exists d, n :: FileAt(dirs, d, n, i)
  }

  /** No file has two names. */
  ghost predicate OneName(dirs: Dirs) {
    forall d, n, e, m, i {:trigger FileAt(dirs, d, n, i), FileAt(dirs, e, m, i)} ::
      FileAt(dirs, d, n, i) && FileAt(dirs, e, m, i) ==> d == e && n == m
  }

  /** The references a file should have: its name's and its handles'. */
  ghost function Wanted(named: bool, handles: nat): nat {
    handles + if named then 1 else 0
  }

  function References(f: Option<RamFiles.File>): nat {
    if f.Some? then f.value.refs else 0
  }

  /** The file of inode `i` has exactly those. */
  ghost predicate CountOk(dirs: Dirs, files: RamFiles.Files, number: map<nat, nat>, handles: map<nat, nat>, i: nat)
    requires i in number
  {
    && number[i] < |files| && number[i] in handles
    && References(files[number[i]]) == Wanted(Named(dirs, i), handles[number[i]])
  }

  ghost predicate Linked(dirs: Dirs, files: RamFiles.Files, number: map<nat, nat>, handles: map<nat, nat>, next: nat) {
    && OneName(dirs)
    && (forall i :: Named(dirs, i) ==> i in number)
    && (forall i, j :: i in number && j in number && number[i] == number[j] ==> i == j)
    && (forall i :: i in number ==> i < next)
    && (forall i {:trigger CountOk(dirs, files, number, handles, i)} :: i in number ==>
        CountOk(dirs, files, number, handles, i))
  }

  /** The entry at one place becomes `e`; no other file entry changes. */
  ghost predicate Placed(dirs: Dirs, dirs': Dirs, d: nat, name: string, e: Option<Entry>) {
    forall x, n, i {:trigger FileAt(dirs', x, n, i)} ::
      FileAt(dirs', x, n, i) <==> if x == d && n == name then e == Some(Entry(Kind.File, i)) else FileAt(dirs, x, n, i)
  }

  lemma CreatePlaces(dirs: Dirs, ino: nat, d: nat, name: string, kind: Kind, dirs': Dirs)
    requires d in dirs && ino !in dirs && Create(dirs, ino, d, name, kind) == Ok(dirs')
    ensures Placed(dirs, dirs', d, name, Some(Entry(kind, ino))) && forall i :: !FileAt(dirs, d, name, i)
  {
  }

  lemma UnlinkPlaces(dirs: Dirs, d: nat, name: string, dirs': Dirs)
    requires d in dirs && Unlink(dirs, d, name) == Ok(dirs')
    ensures Placed(dirs, dirs', d, name, None)
  {
  }

  lemma RmdirPlaces(dirs: Dirs, d: nat, name: string, dirs': Dirs)
    requires d in dirs && Rmdir(dirs, d, name) == Ok(dirs')
    ensures Placed(dirs, dirs', d, name, None) && forall i :: !FileAt(dirs, d, name, i)
  {
  }

  // ---- names and counts under one change ------------------------------------------------------------------

  /** A place without a file gets none: nothing changes. */
  lemma SameNames(dirs: Dirs, dirs': Dirs, d: nat, name: string, e: Option<Entry>)
    requires Placed(dirs, dirs', d, name, e) && (forall i :: !FileAt(dirs, d, name, i))
    requires OneName(dirs) && (e.Some? ==> e.value.kind != Kind.File)
    ensures OneName(dirs') && forall i :: Named(dirs', i) <==> Named(dirs, i)
  {
    assert forall x, n, i :: FileAt(dirs', x, n, i) <==> FileAt(dirs, x, n, i);
    forall i
      ensures Named(dirs', i) <==> Named(dirs, i)
    {
      if x, n :| FileAt(dirs, x, n, i) {
        assert FileAt(dirs', x, n, i);
      }
      if x, n :| FileAt(dirs', x, n, i) {
        assert FileAt(dirs, x, n, i);
      }
    }
  }

  lemma UnchangedLinks(dirs: Dirs, dirs': Dirs, files: RamFiles.Files, number: map<nat, nat>, handles: map<nat, nat>,
                       next: nat, next': nat)
    requires Linked(dirs, files, number, handles, next) && next <= next'
    requires OneName(dirs') && forall i :: Named(dirs', i) <==> Named(dirs, i)
    ensures Linked(dirs', files, number, handles, next')
  {
    forall i | i in number
      ensures CountOk(dirs', files, number, handles, i)
    {
      assert CountOk(dirs, files, number, handles, i);
    }
  }

  /** A new name for a new file. */
  lemma NameAdded(dirs: Dirs, dirs': Dirs, d: nat, name: string, i: nat, j: nat)
    requires Placed(dirs, dirs', d, name, Some(Entry(Kind.File, i))) && (forall k :: !FileAt(dirs, d, name, k))
    ensures Named(dirs', j) <==> Named(dirs, j) || j == i
  {
    assert FileAt(dirs', d, name, i);
    if x, n :| FileAt(dirs, x, n, j) {
      assert FileAt(dirs', x, n, j);
    }
    if x, n :| FileAt(dirs', x, n, j) {
      assert j == i || FileAt(dirs, x, n, j);
    }
  }

  lemma AddedLinks(dirs: Dirs, dirs': Dirs, d: nat, name: string, files: RamFiles.Files, number: map<nat, nat>,
                   handles: map<nat, nat>, i: nat, file: RamFiles.File)
    requires Linked(dirs, files, number, handles, i) && file.refs == 2
    requires Placed(dirs, dirs', d, name, Some(Entry(Kind.File, i))) && (forall k :: !FileAt(dirs, d, name, k))
    ensures Linked(dirs', files + [Some(file)], number[i := |files|], handles[|files| := 1], i + 1)
  {
    var files', number', handles' := files + [Some(file)], number[i := |files|], handles[|files| := 1];
    assert !Named(dirs, i);
    forall j
      ensures Named(dirs', j) <==> Named(dirs, j) || j == i
    {
      NameAdded(dirs, dirs', d, name, i, j);
    }
    forall j | j in number
      ensures number[j] < |files|
    {
      assert CountOk(dirs, files, number, handles, j);
    }
    forall j | j in number'
      ensures CountOk(dirs', files', number', handles', j)
    {
      if j != i {
        assert CountOk(dirs, files, number, handles, j);
      }
    }
    assert OneName(dirs') by {
      AddedOnce(dirs, dirs', d, name, i);
    }
  }

  lemma AddedOnce(dirs: Dirs, dirs': Dirs, d: nat, name: string, i: nat)
    requires OneName(dirs) && !Named(dirs, i) && Placed(dirs, dirs', d, name, Some(Entry(Kind.File, i)))
    ensures OneName(dirs')
  {
    forall x, n, y, m, j | FileAt(dirs', x, n, j) && FileAt(dirs', y, m, j)
      ensures x == y && n == m
    {
      assert !(x == d && n == name) ==> FileAt(dirs, x, n, j);
      assert !(y == d && m == name) ==> FileAt(dirs, y, m, j);
    }
  }

  /** A name goes: just that file has none any more. */
  lemma NameGone(dirs: Dirs, dirs': Dirs, d: nat, name: string, i: nat, j: nat)
    requires OneName(dirs) && FileAt(dirs, d, name, i) && Placed(dirs, dirs', d, name, None)
    ensures Named(dirs', j) <==> Named(dirs, j) && j != i
  {
    if x, n :| FileAt(dirs', x, n, j) {
      assert FileAt(dirs, x, n, j);
    }
    if x, n :| FileAt(dirs, x, n, j) {
      assert j != i ==> FileAt(dirs', x, n, j);
    }
  }

  lemma GoneOnce(dirs: Dirs, dirs': Dirs, d: nat, name: string)
    requires OneName(dirs) && Placed(dirs, dirs', d, name, None)
    ensures OneName(dirs')
  {
    forall x, n, y, m, j | FileAt(dirs', x, n, j) && FileAt(dirs', y, m, j)
      ensures x == y && n == m
    {
      assert FileAt(dirs, x, n, j) && FileAt(dirs, y, m, j);
    }
  }

  /** One file's count changes with its name or its handles. */
  lemma CountChanges(dirs: Dirs, dirs': Dirs, files: RamFiles.Files, files': RamFiles.Files, number: map<nat, nat>,
                     handles: map<nat, nat>, handles': map<nat, nat>, next: nat, i: nat)
    requires Linked(dirs, files, number, handles, next) && i in number && OneName(dirs')
    requires |files'| == |files| && forall f: nat :: f < |files| && f != number[i] ==> files'[f] == files[f]
    requires forall f :: f in handles ==> f in handles' && (f != number[i] ==> handles'[f] == handles[f])
    requires forall j :: Named(dirs', j) ==> Named(dirs, j)
    requires forall j :: j != i ==> (Named(dirs', j) <==> Named(dirs, j))
    requires number[i] < |files| && number[i] in handles'
    requires References(files'[number[i]]) == Wanted(Named(dirs', i), handles'[number[i]])
    ensures Linked(dirs', files', number, handles', next)
  {
    forall j | j in number
      ensures CountOk(dirs', files', number, handles', j)
    {
      assert CountOk(dirs, files, number, handles, j);
    }
  }

  /** A rename moves one name and takes away the one it replaces. */
  ghost predicate NameMoved(dirs: Dirs, dirs': Dirs, s: nat, name: string, t: nat, newName: string) {
    && s in dirs && name in dirs[s].entries && !(s == t && name == newName)
    && forall x, n, i {:trigger FileAt(dirs', x, n, i)} :: FileAt(dirs', x, n, i) <==>
         if x == t && n == newName then FileAt(dirs, s, name, i)
         else !(x == s && n == name) && FileAt(dirs, x, n, i)
  }

  lemma RenamePlaces(dirs: Dirs, dirs': Dirs, s: nat, name: string, t: nat, newName: string)
    requires Renamed(dirs, dirs', s, name, t, newName) && !(s == t && name == newName)
    ensures NameMoved(dirs, dirs', s, name, t, newName)
  {
    var e := dirs[s].entries[name];
    forall x, n, i
      ensures FileAt(dirs', x, n, i) <==>
              if x == t && n == newName then FileAt(dirs, s, name, i)
              else !(x == s && n == name) && FileAt(dirs, x, n, i)
    {
      if x in dirs {
        assert EntryAt(dirs', x, n) ==
               if x == t && n == newName then Some(e) else if x == s && n == name then None else EntryAt(dirs, x, n);
      }
    }
  }

  lemma MovedNamed(dirs: Dirs, dirs': Dirs, s: nat, name: string, t: nat, newName: string, i: nat)
    requires NameMoved(dirs, dirs', s, name, t, newName) && OneName(dirs)
    ensures Named(dirs', i) <==> Named(dirs, i) && !FileAt(dirs, t, newName, i)
  {
    if x, n :| FileAt(dirs', x, n, i) {
      assert FileAt(dirs, s, name, i) || FileAt(dirs, x, n, i);
    }
    if x, n :| FileAt(dirs, x, n, i) && !FileAt(dirs, t, newName, i) {
      if x == s && n == name {
        assert FileAt(dirs', t, newName, i);
      } else {
        assert FileAt(dirs', x, n, i);
      }
    }
  }

  lemma MovedOnce(dirs: Dirs, dirs': Dirs, s: nat, name: string, t: nat, newName: string)
    requires NameMoved(dirs, dirs', s, name, t, newName) && OneName(dirs)
    ensures OneName(dirs')
  {
    forall x, n, y, m, j | FileAt(dirs', x, n, j) && FileAt(dirs', y, m, j)
      ensures x == y && n == m
    {
      assert if x == t && n == newName then FileAt(dirs, s, name, j) else FileAt(dirs, x, n, j);
      assert if y == t && m == newName then FileAt(dirs, s, name, j) else FileAt(dirs, y, m, j);
    }
  }

  // ---- the volume -------------------------------------------------------------------------------------------

  class Volume {
    const tree: RamFs.FileSystem
    const store: RamFiles.Store
    /** The file behind an inode number, and how many handles have a file open. */
    var number: map<nat, nat>
    var handles: map<nat, nat>

    ghost predicate Valid()
      reads this, tree, store
    {
      && tree.Valid() && store.Valid() && Linked(tree.dirs, store.files, number, handles, tree.nextIno)
    }

    /** A file is there exactly while it has a name or a handle; the counter of used bytes, which is
        the sum of the lengths of the files there are, counts it exactly that long. */
    lemma LivesWhileReferenced(i: nat)
      requires Valid() && i in number
      ensures number[i] in handles && (store.Live(number[i]) <==> Named(tree.dirs, i) || handles[number[i]] > 0)
      ensures store.used == RamFiles.Total(store.files) <= store.limit
    {
      assert CountOk(tree.dirs, store.files, number, handles, i);
    }

    constructor (limit: nat)
      requires limit <= U64_MAX
      ensures Valid() && fresh(tree) && fresh(store) && number == map[] && store.files == []
    {
      tree := new RamFs.FileSystem();
      store := new RamFiles.Store(limit);
      number, handles := map[], map[];
    }

    /** `create` of a file: a new entry, and a handle for the caller. */
    method CreateFile(d: nat, name: string) returns (r: Result<nat>)
      requires Valid() && d in tree.dirs
      modifies this, tree, store
      ensures Valid()
      ensures r.Err? ==> tree.dirs == old(tree.dirs) && store.files == old(store.files)
      ensures r.Ok? ==> r.value == |old(store.files)| && r.value in handles && handles[r.value] == 1
      ensures r.Ok? ==> OneEntry(old(tree.dirs), tree.dirs, d, name, Some(Entry(Kind.File, old(tree.nextIno))), None)
    {
      var made := tree.CreateEntry(d, name, Kind.File);
      if made.Err? {
        return Err(made.error);
      }
      ghost var files := store.files;
      var f := store.NewFile();
      store.Open(f);
      CreatePlaces(old(tree.dirs), made.value, d, name, Kind.File, tree.dirs);
      AddedLinks(old(tree.dirs), tree.dirs, d, name, files, number, handles, made.value, RamFiles.File([], 2));
      assert store.files == files + [Some(RamFiles.File([], 2))];
      number, handles := number[made.value := f], handles[f := 1];
      return Ok(f);
    }

    /** `create` of a directory. */
    method CreateDirectory(d: nat, name: string) returns (r: Result<nat>)
      requires Valid() && d in tree.dirs
      modifies tree
      ensures Valid() && (r.Err? ==> tree.dirs == old(tree.dirs))
    {
      r := tree.CreateEntry(d, name, Directory);
      if r.Ok? {
        CreatePlaces(old(tree.dirs), r.value, d, name, Directory, tree.dirs);
        SameNames(old(tree.dirs), tree.dirs, d, name, Some(Entry(Directory, r.value)));
        UnchangedLinks(old(tree.dirs), tree.dirs, store.files, number, handles, old(tree.nextIno), tree.nextIno);
      }
    }

    /** `lookup` of a file: one more handle. */
    method OpenFile(d: nat, name: string) returns (r: Result<nat>)
      requires Valid() && d in tree.dirs
      modifies this, store
      ensures Valid() && (r.Err? ==> store.files == old(store.files) && handles == old(handles))
      ensures r.Ok? ==> r.value in old(handles) && handles == old(handles)[r.value := old(handles)[r.value] + 1]
    {
      var found := tree.Lookup(d, name);
      if found.Err? || found.value.kind != Kind.File {
        return Err(ENOENT);
      }
      ghost var i := found.value.ino;
      assert FileAt(tree.dirs, d, name, i);
      assert CountOk(tree.dirs, store.files, number, handles, i);
      var f := number[found.value.ino];
      store.Open(f);
      handles := handles[f := handles[f] + 1];
      CountChanges(tree.dirs, tree.dirs, old(store.files), store.files, number, old(handles), handles, tree.nextIno, i);
      return Ok(f);
    }

    /** A handle goes. Without a name, the last one takes the file with it. */
    method Close(f: nat, ghost i: nat)
      requires Valid() && f in handles && handles[f] > 0 && i in number && number[i] == f
      modifies this, store
      ensures Valid() && handles == old(handles)[f := old(handles)[f] - 1]
      ensures !store.Live(f) <==> old(handles)[f] == 1 && !Named(tree.dirs, i)
    {
      assert CountOk(tree.dirs, store.files, number, handles, i);
      store.Drop(f);
      handles := handles[f := handles[f] - 1];
      CountChanges(tree.dirs, tree.dirs, old(store.files), store.files, number, old(handles), handles, tree.nextIno, i);
    }

    /** Writing through a handle changes contents, not references. */
    method Write(f: nat, start: nat, bytes: seq<Byte>, heapFull: bool) returns (r: Result<nat>)
      requires Valid() && store.Live(f)
      modifies store
      ensures Valid() && store.Live(f)
      ensures r.Ok? ==> RamFiles.Written(old(store.files)[f].value.data, store.files[f].value.data, start, bytes)
      ensures r.Err? ==> store.files == old(store.files)
    {
      r := store.WriteAt(f, start, bytes, heapFull);
      forall i | i in number
        ensures CountOk(tree.dirs, store.files, number, handles, i)
      {
        assert CountOk(tree.dirs, old(store.files), number, handles, i);
      }
    }

    /** `unlink`: the name goes; open handles keep the file. */
    method Unlink(d: nat, name: string) returns (r: Result<()>)
      requires Valid() && d in tree.dirs
      modifies tree, store
      ensures Valid() && (r.Err? ==> tree.dirs == old(tree.dirs) && store.files == old(store.files))
      ensures r.Ok? ==> OneEntry(old(tree.dirs), tree.dirs, d, name, None, None)
    {
      ghost var was := tree.dirs;
      var found := tree.Lookup(d, name);
      r := tree.UnlinkEntry(d, name);
      if r.Ok? {
        UnlinkPlaces(was, d, name, tree.dirs);
        if found.value.kind == Kind.File {
          ghost var i := found.value.ino;
          assert FileAt(was, d, name, i) && CountOk(was, store.files, number, handles, i);
          GoneOnce(was, tree.dirs, d, name);
          forall j
            ensures Named(tree.dirs, j) <==> Named(was, j) && j != i
          {
            NameGone(was, tree.dirs, d, name, i, j);
          }
          store.Drop(number[found.value.ino]);
          CountChanges(was, tree.dirs, old(store.files), store.files, number, handles, handles, tree.nextIno, i);
        } else {
          SameNames(was, tree.dirs, d, name, None);
          UnchangedLinks(was, tree.dirs, store.files, number, handles, tree.nextIno, tree.nextIno);
        }
      }
    }

    method RemoveDirectory(d: nat, name: string) returns (r: Result<()>)
      requires Valid() && d in tree.dirs
      modifies tree
      ensures Valid() && (r.Err? ==> tree.dirs == old(tree.dirs))
    {
      r := tree.RemoveDirectory(d, name);
      if r.Ok? {
        RmdirPlaces(old(tree.dirs), d, name, tree.dirs);
        SameNames(old(tree.dirs), tree.dirs, d, name, None);
        UnchangedLinks(old(tree.dirs), tree.dirs, store.files, number, handles, tree.nextIno, tree.nextIno);
      }
    }

    /** `rename`: a file that gives way loses its name, and goes unless it is open. */
    method Rename(s: nat, name: string, t: nat, newName: string) returns (r: Result<()>)
      requires Valid() && s in tree.dirs && t in tree.dirs
      modifies tree, store
      ensures Valid() && (r.Err? ==> tree.dirs == old(tree.dirs) && store.files == old(store.files))
      ensures r.Ok? && !(s == t && name == newName) ==> Renamed(old(tree.dirs), tree.dirs, s, name, t, newName)
    {
      ghost var was := tree.dirs;
      var replaced := tree.Lookup(t, newName);
      r := tree.Rename(s, name, t, newName);
      if r.Err? || (s == t && name == newName) {
        UnchangedLinks(was, tree.dirs, store.files, number, handles, tree.nextIno, tree.nextIno);
        return;
      }
      RenamePlaces(was, tree.dirs, s, name, t, newName);
      MovedOnce(was, tree.dirs, s, name, t, newName);
      forall j
        ensures Named(tree.dirs, j) <==> Named(was, j) && !FileAt(was, t, newName, j)
      {
        MovedNamed(was, tree.dirs, s, name, t, newName, j);
      }
      if replaced.Ok? && replaced.value.kind == Kind.File {
        ghost var i := replaced.value.ino;
        assert FileAt(was, t, newName, i) && CountOk(was, store.files, number, handles, i);
        store.Drop(number[replaced.value.ino]);
        CountChanges(was, tree.dirs, old(store.files), store.files, number, handles, handles, tree.nextIno, i);
      } else {
        UnchangedLinks(was, tree.dirs, store.files, number, handles, tree.nextIno, tree.nextIno);
      }
    }
  }
}
