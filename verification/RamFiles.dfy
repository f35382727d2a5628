/** File contents of the in-memory filesystem, and the byte limit they share. The counter of used
    bytes is exact at every moment: it is the sum of the lengths of the files still referenced, and
    it never passes the limit.
  */
module RamFiles {
  import opened Bytes
  import opened Outcomes

  /** A file and the references to it: its directory entry and the handles that have it open. */
  datatype File = File(data: seq<Byte>, refs: nat)

  /** By number; a file nobody refers to is gone. */
  type Files = seq<Option<File>>

  function Length(f: Option<File>): nat {
    if f.Some? then |f.value.data| else 0
  }

  function Total(files: Files): nat {
    if files == [] then 0 else Total(files[..|files| - 1]) + Length(files[|files| - 1])
  }

  lemma {:induction false} TotalSet(files: Files, i: nat, f: Option<File>)
    requires i < |files|
    ensures Total(files[i := f]) + Length(files[i]) == Total(files) + Length(f)
  {
    var n := |files| - 1;
    if i < n {
      TotalSet(files[..n], i, f);
      assert files[i := f][..n] == files[..n][i := f];
    } else {
      assert files[i := f][..n] == files[..n];
    }
  }

  lemma TotalAdd(files: Files, f: Option<File>)
    ensures Total(files + [f]) == Total(files) + Length(f)
  {
    assert (files + [f])[..|files|] == files;
  }

  lemma {:induction false} AtMostTotal(files: Files, i: nat)
    requires i < |files|
    ensures Length(files[i]) <= Total(files)
  {
    var n := |files| - 1;
    if i < n {
      AtMostTotal(files[..n], i);
    }
  }

  /** Byte `i` of a file; past the end there is only zero. */
  function ByteAt(data: seq<Byte>, i: nat): Byte {
    if i < |data| then data[i] else 0
  }

  /** `after` is `before` with `bytes` written at `start`: a gap reads as zeros. */
  ghost predicate Written(before: seq<Byte>, after: seq<Byte>, start: nat, bytes: seq<Byte>) {
    && |after| == (if start + |bytes| > |before| then start + |bytes| else |before|)
    && forall i: nat :: i < |after| ==>
         after[i] == if start <= i < start + |bytes| then bytes[i - start] else ByteAt(before, i)
  }

  class Store {
    const limit: nat
    var used: nat
    var files: Files

    ghost predicate Live(f: nat)
      reads this
    {
      f < |files| && files[f].Some?
    }

    /** The counter is exact, within the limit, and every file there is referenced. */
    ghost predicate Valid()
      reads this
    {
      && used == Total(files) && used <= limit <= U64_MAX
      && forall f: nat :: Live(f) ==> files[f].value.refs > 0
    }

    /** The file would grow past the limit, or the heap has no room for it to grow. */
    ghost predicate NoRoom(f: nat, length: nat, heapFull: bool)
      requires Live(f)
      reads this
    {
      var size := |files[f].value.data|;
      length > size && (heapFull || used + (length - size) > limit)
    }

    /** Nothing but the file changes. */
    twostate predicate Only(f: nat)
      reads this
    {
      |files| == |old(files)| && forall g: nat :: g < |files| && g != f ==> files[g] == old(files)[g]
    }

    constructor (limit: nat)
      requires limit <= U64_MAX
      ensures Valid() && this.limit == limit && files == []
    {
      this.limit, used, files := limit, 0, [];
    }

    /** `reserve`. */
    method Reserve(bytes: nat) returns (r: Result<()>)
      modifies this`used
      ensures r == if old(used) + bytes <= limit then Ok(()) else Err(ENOSPC)
      ensures used == old(used) + if r.Ok? then bytes else 0
    {
      if used + bytes > limit {
        return Err(ENOSPC);
      }
      used := used + bytes;
      return Ok(());
    }

    method Release(bytes: nat)
      requires bytes <= used
      modifies this`used
      ensures used == old(used) - bytes
    {
      used := used - bytes;
    }

    /** A new, empty file with its directory entry's reference. */
    method NewFile() returns (f: nat)
      requires Valid()
      modifies this`files
      ensures Valid() && f == |old(files)| && files == old(files) + [Some(File([], 1))]
    {
      TotalAdd(files, Some(File([], 1)));
      f := |files|;
      files := files + [Some(File([], 1))];
    }

    method Open(f: nat)
      requires Valid() && Live(f)
      modifies this`files
      ensures Valid() && Only(f) && files[f] == Some(old(files)[f].value.(refs := old(files)[f].value.refs + 1))
    {
      var more := files[f].value.(refs := files[f].value.refs + 1);
      TotalSet(files, f, Some(more));
      files := files[f := Some(more)];
    }

    /** A reference goes; with the last one the file, and its bytes are free again. */
    method Drop(f: nat)
      requires Valid() && Live(f)
      modifies this
      ensures Valid() && Only(f)
      ensures files[f] == if old(files)[f].value.refs == 1 then None
                          else Some(old(files)[f].value.(refs := old(files)[f].value.refs - 1))
      ensures old(files)[f].value.refs == 1 ==> used + |old(files)[f].value.data| == old(used)
    {
      var file := files[f].value;
      AtMostTotal(files, f);
      if file.refs == 1 {
        TotalSet(files, f, None);
        files := files[f := None];
        Release(|file.data|);
      } else {
        TotalSet(files, f, Some(file.(refs := file.refs - 1)));
        files := files[f := Some(file.(refs := file.refs - 1))];
      }
    }

    /** `resize`: cut off or filled up with zeros; refused, with nothing changed, exactly when the
        limit would be passed or the heap has no room to grow. */
    method Resize(f: nat, length: nat, heapFull: bool) returns (r: Result<()>)
      requires Valid() && Live(f)
      modifies this
      ensures Valid() && Only(f)
      ensures r.Err? <==> old(NoRoom(f, length, heapFull))
      ensures r.Err? ==> r == Err(ENOSPC) && files == old(files) && used == old(used)
      ensures r.Ok? ==> Live(f) && files[f].value.refs == old(files)[f].value.refs && |files[f].value.data| == length
      ensures r.Ok? ==> forall i: nat :: i < length ==> files[f].value.data[i] == ByteAt(old(files)[f].value.data, i)
    {
      var file := files[f].value;
      var data := file.data;
      AtMostTotal(files, f);
      if length > |data| {
        var grow := length - |data|;
        r := Reserve(grow);
        if r.Err? {
          return;
        }
        if heapFull {
          Release(grow);
          return Err(ENOSPC);
        }
        data := data + Zeros(grow);
      } else {
        data := data[..length];
        Release(|file.data| - length);
      }
      TotalSet(files, f, Some(file.(data := data)));
      files := files[f := Some(file.(data := data))];
      return Ok(());
    }

    /** `write_at`: all of the bytes, or none. */
    method WriteAt(f: nat, start: nat, bytes: seq<Byte>, heapFull: bool) returns (r: Result<nat>)
      requires Valid() && Live(f)
      modifies this
      ensures Valid() && Only(f)
      ensures start + |bytes| > U64_MAX ==> r == Err(EINVAL)
      ensures r.Err? ==> files == old(files) && used == old(used)
      ensures r.Err? <==> start + |bytes| > U64_MAX || old(NoRoom(f, start + |bytes|, heapFull))
      ensures r.Ok? ==> r.value == |bytes| && Live(f) && files[f].value.refs == old(files)[f].value.refs
      ensures r.Ok? ==> Written(old(files)[f].value.data, files[f].value.data, start, bytes)
    {
      var end := start + |bytes|;
      if end > U64_MAX {
        return Err(EINVAL);
      }
      if end > |files[f].value.data| {
        var grown := Resize(f, end, heapFull);
        if grown.Err? {
          return Err(grown.error);
        }
      }
      var file := files[f].value;
      var data := file.data[..start] + bytes + file.data[end..];
      TotalSet(files, f, Some(file.(data := data)));
      files := files[f := Some(file.(data := data))];
      return Ok(|bytes|);
    }

    /** `read_at`: what there is, up to `count` bytes. */
    method ReadAt(f: nat, start: nat, count: nat) returns (bytes: seq<Byte>)
      requires Live(f)
      ensures var data := files[f].value.data;
        && |bytes| == (if start >= |data| then 0 else if start + count <= |data| then count else |data| - start)
        && forall i :: 0 <= i < |bytes| ==> bytes[i] == data[start + i]
    {
      var data := files[f].value.data;
      if start >= |data| {
        return [];
      }
      var end := if start + count <= |data| then start + count else |data|;
      return data[start..end];
    }

    method Truncate(f: nat, size: nat, heapFull: bool) returns (r: Result<()>)
      requires Valid() && Live(f)
      modifies this
      ensures Valid() && Only(f) && (r.Err? ==> files == old(files) && used == old(used))
      ensures size > U64_MAX ==> r == Err(EINVAL)
      ensures r.Err? <==> size > U64_MAX || old(NoRoom(f, size, heapFull))
      ensures r.Ok? ==> Live(f) && |files[f].value.data| == size
      ensures r.Ok? ==> forall i: nat :: i < size ==> files[f].value.data[i] == ByteAt(old(files)[f].value.data, i)
    {
      if size > U64_MAX {
        return Err(EINVAL);
      }
      r := Resize(f, size, heapFull);
    }

    /** What was written is read back, whatever was there before. */
    method WriteThenRead(f: nat, start: nat, bytes: seq<Byte>, heapFull: bool) returns (r: Result<nat>, back: seq<Byte>)
      requires Valid() && Live(f)
      modifies this
      ensures Valid() && (r.Ok? ==> back == bytes)
    {
      r := WriteAt(f, start, bytes, heapFull);
      back := ReadAt(f, start, |bytes|);
    }
  }
}
