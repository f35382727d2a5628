/** The process table: parents and children, exit statuses, threads, and the address spaces
    of reaped processes. Process ids are the keys; they are handed out in order and never
    come back.
  */
module Processes {
  import opened Outcomes

  const INIT_PID: nat := 1

  datatype ProcessError = UnknownProcess | DuplicateThread | AlreadyExited | NotExited

  datatype Outcome<+T> = Done(value: T) | Failed(error: ProcessError)

  datatype Pcb = Pcb(parent: Option<nat>, space: Option<nat>, children: seq<nat>, status: Option<int>,
                     threads: seq<nat>, references: nat, waiters: seq<nat>)

  type Procs = map<nat, Pcb>

  function NewPcb(parent: Option<nat>, space: Option<nat>, thread: nat): Pcb {
    Pcb(parent, space, [], None, [thread], 0, [])
  }

  /** `retain(|id| id != x)`. */
  function Without(s: seq<nat>, x: nat): (r: seq<nat>)
    ensures forall y :: y in r <==> y in s && y != x
    ensures x !in s ==> r == s
  {
    if s == [] then []
    else if s[|s| - 1] == x then Without(s[..|s| - 1], x)
    else Without(s[..|s| - 1], x) + [s[|s| - 1]]
  }

  // ---- the operations as values -----------------------------------------------------------------

  function Created(procs: Procs, id: nat, parent: Option<nat>, space: Option<nat>, thread: nat): Procs {
    var added := procs[id := NewPcb(parent, space, thread)];
    if parent.Some? && parent.value in procs then
      added[parent.value := procs[parent.value].(children := procs[parent.value].children + [id])]
    else added
  }

  /** The record of `q` once the children of `p` belong to `heir`. */
  function Moved(procs: Procs, p: nat, heir: nat, q: nat): Pcb
    requires p in procs && q in procs
  {
    var orphans := procs[p].children;
    procs[q].(parent := if q in orphans then Some(heir) else procs[q].parent,
              children := if q == p then [] else if q == heir then procs[q].children + orphans else procs[q].children)
  }

  function Reparented(procs: Procs, p: nat, heir: nat): Procs {
    if p == heir || p !in procs then procs else map q | q in procs :: Moved(procs, p, heir, q)
  }

  predicate CanReap(procs: Procs, p: nat) {
    && p in procs && procs[p].parent.None? && procs[p].threads == [] && procs[p].status.Some?
    && procs[p].references == 0 && procs[p].waiters == []
  }

  function Reaped(procs: Procs, p: nat): Procs {
    if CanReap(procs, p) then map q | q in procs && q != p :: procs[q].(children := Without(procs[q].children, p))
    else procs
  }

  /** What reaping hands over for release. */
  function ReapedSpace(procs: Procs, p: nat): seq<nat> {
    if CanReap(procs, p) && procs[p].space.Some? then [procs[p].space.value] else []
  }

  predicate Collectable(procs: Procs, c: nat) {
    c in procs && procs[c].status.Some? && procs[c].threads == []
  }

  /** `c` no longer belongs to `p`. */
  function Disowned(procs: Procs, p: nat, c: nat): Procs
    requires p in procs && c in procs
  {
    var shrunk := procs[p := procs[p].(children := Without(procs[p].children, c))];
    shrunk[c := shrunk[c].(parent := None)]
  }

  predicate CanCollect(procs: Procs, p: nat, c: nat) {
    Collectable(procs, c) && procs[c].parent == Some(p) && p in procs
  }

  /** The first collectable child, oldest first. */
  function FirstExited(procs: Procs, children: seq<nat>): (r: Option<nat>)
    ensures r.None? <==> forall c :: c in children ==> !Collectable(procs, c)
    ensures r.Some? ==> r.value in children && Collectable(procs, r.value)
  {
    if children == [] then None
    else if Collectable(procs, children[0]) then Some(children[0])
    else FirstExited(procs, children[1..])
  }

  /** `c` has a status and no thread, and no child listed before it has. */
  ghost predicate OldestGone(procs: Procs, children: seq<nat>, c: nat) {
    exists i :: 0 <= i < |children| && children[i] == c && GoneAt(procs, children, i)
  }

  ghost predicate GoneAt(procs: Procs, children: seq<nat>, i: int)
    requires 0 <= i < |children|
  {
    && children[i] in procs && procs[children[i]].status.Some? && procs[children[i]].threads == []
    && forall j :: 0 <= j < i && children[j] in procs ==>
         procs[children[j]].status.None? || procs[children[j]].threads != []
  }

  /** None of the children has a status and no thread. */
  ghost predicate AllStay(procs: Procs, children: seq<nat>) {
    forall c :: c in children && c in procs ==> procs[c].status.None? || procs[c].threads != []
  }

  lemma {:induction false} FirstExitedIs(procs: Procs, children: seq<nat>, c: nat)
    ensures FirstExited(procs, children) == Some(c) <==> OldestGone(procs, children, c)
    ensures FirstExited(procs, children) == None <==> AllStay(procs, children)
  {
    if children != [] && !Collectable(procs, children[0]) {
      var rest := children[1..];
      FirstExitedIs(procs, rest, c);
      assert children == [children[0]] + rest;
      if OldestGone(procs, rest, c) {
        var i :| 0 <= i < |rest| && rest[i] == c && GoneAt(procs, rest, i);
        assert GoneAt(procs, children, i + 1) && children[i + 1] == c;
      }
      if OldestGone(procs, children, c) {
        var i :| 0 <= i < |children| && children[i] == c && GoneAt(procs, children, i);
        assert GoneAt(procs, rest, i - 1) && rest[i - 1] == c;
      }
    } else if children != [] {
      assert GoneAt(procs, children, 0);
      if OldestGone(procs, children, c) {
        var i :| 0 <= i < |children| && children[i] == c && GoneAt(procs, children, i);
        assert i == 0;
      }
    }
  }

  function ThreadDropped(procs: Procs, p: nat, t: nat): Procs {
    if p !in procs || t !in procs[p].threads then procs
    else procs[p := procs[p].(threads := SwapRemoved(procs[p].threads, t))]
  }

  function SwapRemoved(s: seq<nat>, t: nat): (r: seq<nat>)
    requires t in s
    ensures |r| == |s| - 1
  {
    var i := IndexOf(s, t);
    if i == |s| - 1 then s[..i] else s[..i] + [s[|s| - 1]] + s[i + 1..|s| - 1]
  }

  function IndexOf(s: seq<nat>, t: nat): (i: nat)
    requires t in s
    ensures i < |s| && s[i] == t
  {
    if s[0] == t then 0 else 1 + IndexOf(s[1..], t)
  }

  // ---- parents and children ---------------------------------------------------------------------

  ghost predicate Distinct(s: seq<nat>) {
    forall i, j :: 0 <= i < j < |s| ==> s[i] != s[j]
  }

  /** Parent links and children lists say the same. */
  ghost predicate PcbOk(procs: Procs, p: nat)
    requires p in procs
  {
    && Distinct(procs[p].children)
    && (forall c :: c in procs[p].children ==> c in procs && procs[c].parent == Some(p))
    && (procs[p].parent.Some? ==> procs[p].parent.value in procs && p in procs[procs[p].parent.value].children)
  }

  ghost predicate Linked(procs: Procs) {
    INIT_PID in procs && forall p {:trigger PcbOk(procs, p)} :: p in procs ==> PcbOk(procs, p)
  }

  /** ... and the dead have no children; PID 1 lives. */
  ghost predicate Family(procs: Procs) {
    && Linked(procs) && procs[INIT_PID].status.None?
    && forall p :: p in procs && procs[p].status.Some? ==> procs[p].children == []
  }

  lemma {:induction false} WithoutDistinct(s: seq<nat>, x: nat)
    requires Distinct(s)
    ensures Distinct(Without(s, x))
  {
    if s != [] {
      WithoutDistinct(s[..|s| - 1], x);
      assert s[|s| - 1] !in Without(s[..|s| - 1], x);
    }
  }

  lemma CreatedLinked(procs: Procs, id: nat, parent: Option<nat>, space: Option<nat>, thread: nat)
    requires Linked(procs) && id !in procs && (parent.Some? ==> parent.value in procs)
    ensures Linked(Created(procs, id, parent, space, thread))
  {
    var procs' := Created(procs, id, parent, space, thread);
    forall p | p in procs'
      ensures PcbOk(procs', p)
    {
      if p != id {
        assert PcbOk(procs, p);
      }
    }
  }

  lemma CreatedFamily(procs: Procs, id: nat, parent: Option<nat>, space: Option<nat>, thread: nat)
    requires Family(procs) && id !in procs
    requires parent.Some? ==> parent.value in procs && procs[parent.value].status.None?
    ensures Family(Created(procs, id, parent, space, thread))
  {
    CreatedLinked(procs, id, parent, space, thread);
  }

  lemma ReparentedLinked(procs: Procs, p: nat)
    requires Linked(procs) && p in procs && p != INIT_PID
    ensures Linked(Reparented(procs, p, INIT_PID)) && Reparented(procs, p, INIT_PID)[p].children == []
  {
    var procs' := Reparented(procs, p, INIT_PID);
    assert PcbOk(procs, p) && PcbOk(procs, INIT_PID);
    forall q | q in procs'
      ensures PcbOk(procs', q)
    {
      assert PcbOk(procs, q);
      MovedOk(procs, p, q);
    }
  }

  lemma ReparentedFamily(procs: Procs, p: nat)
    requires Family(procs) && p in procs && p != INIT_PID
    ensures Family(Reparented(procs, p, INIT_PID)) && Reparented(procs, p, INIT_PID)[p].children == []
  {
    ReparentedLinked(procs, p);
    var procs' := Reparented(procs, p, INIT_PID);
    forall q | q in procs' && procs'[q].status.Some?
      ensures procs'[q].children == []
    {
      assert procs'[q] == Moved(procs, p, INIT_PID, q);
    }
  }

  lemma MovedOk(procs: Procs, p: nat, q: nat)
    requires p in procs && p != INIT_PID && INIT_PID in procs && q in procs
    requires PcbOk(procs, p) && PcbOk(procs, INIT_PID) && PcbOk(procs, q)
    ensures PcbOk(Reparented(procs, p, INIT_PID), q)
  {
    var procs' := Reparented(procs, p, INIT_PID);
    if q == INIT_PID {
      DistinctConcat(procs[q].children, procs[p].children);
    }
    assert procs'[q] == Moved(procs, p, INIT_PID, q);
    forall c | c in procs'[q].children
      ensures c in procs' && procs'[c].parent == Some(q)
    {
      assert procs'[c] == Moved(procs, p, INIT_PID, c);
    }
    if procs'[q].parent.Some? {
      var r := procs'[q].parent.value;
      assert procs'[r] == Moved(procs, p, INIT_PID, r);
    }
  }

  lemma DistinctConcat(a: seq<nat>, b: seq<nat>)
    requires Distinct(a) && Distinct(b) && forall x :: x in a ==> x !in b
    ensures Distinct(a + b)
  {
    forall i, j | 0 <= i < j < |a + b|
      ensures (a + b)[i] != (a + b)[j]
    {
      if i < |a| <= j {
        assert a[i] in a && b[j - |a|] in b;
      }
    }
  }

  /** Reaping takes one record away; the links stay consistent when it has no children. */
  lemma ReapedLinked(procs: Procs, p: nat)
    requires Linked(procs) && CanReap(procs, p) && p != INIT_PID && procs[p].children == []
    ensures Linked(Reaped(procs, p))
    ensures forall q :: q in procs && q != p ==> q in Reaped(procs, p) && Reaped(procs, p)[q] == procs[q]
  {
    assert PcbOk(procs, p);
    forall q | q in procs && q != p
      ensures Reaped(procs, p)[q] == procs[q]
    {
      assert PcbOk(procs, q);
      assert p !in procs[q].children;
    }
    forall q | q in Reaped(procs, p)
      ensures PcbOk(Reaped(procs, p), q)
    {
      assert PcbOk(procs, q);
    }
  }

  lemma ReapedFamily(procs: Procs, p: nat)
    requires Family(procs) && CanReap(procs, p)
    ensures Family(Reaped(procs, p))
    ensures forall q :: q in procs && q != p ==> q in Reaped(procs, p) && Reaped(procs, p)[q] == procs[q]
  {
    ReapedLinked(procs, p);
  }

  lemma DisownedLinked(procs: Procs, p: nat, c: nat)
    requires Linked(procs) && p in procs && c in procs && procs[c].parent == Some(p)
    ensures Linked(Disowned(procs, p, c)) && (procs[c].children == [] ==> Disowned(procs, p, c)[c].children == [])
  {
    var procs' := Disowned(procs, p, c);
    assert PcbOk(procs, p) && PcbOk(procs, c);
    forall q | q in procs'
      ensures PcbOk(procs', q)
    {
      assert PcbOk(procs, q);
      DisownedOk(procs, p, c, q);
    }
  }

  lemma DisownedFamily(procs: Procs, p: nat, c: nat)
    requires Family(procs) && p in procs && c in procs && procs[c].parent == Some(p)
    ensures Family(Disowned(procs, p, c))
  {
    DisownedLinked(procs, p, c);
  }

  lemma DisownedOk(procs: Procs, p: nat, c: nat, q: nat)
    requires p in procs && c in procs && q in procs && procs[c].parent == Some(p) && PcbOk(procs, c) && PcbOk(procs, q)
    ensures PcbOk(Disowned(procs, p, c), q)
  {
    WithoutDistinct(procs[q].children, c);
    assert q != p ==> c !in procs[q].children;
  }

  /** Setting one record's status, threads or space. */
  lemma RecordLinked(procs: Procs, p: nat, r: Pcb)
    requires Linked(procs) && p in procs && r.parent == procs[p].parent && r.children == procs[p].children
    ensures Linked(procs[p := r])
  {
    var procs' := procs[p := r];
    forall q | q in procs'
      ensures PcbOk(procs', q)
    {
      assert PcbOk(procs, q);
    }
  }

  lemma RecordFamily(procs: Procs, p: nat, r: Pcb)
    requires Family(procs) && p in procs && r.parent == procs[p].parent && r.children == procs[p].children
    requires r.status != procs[p].status ==> p != INIT_PID && procs[p].children == []
    ensures Family(procs[p := r])
  {
    RecordLinked(procs, p, r);
  }

  /** Not PID 1, and without children: what `exit_current` leaves to be reaped. */
  ghost predicate Barren(procs: Procs, p: nat) {
    p in procs && p != INIT_PID && procs[p].children == []
  }

  // ---- the table ----------------------------------------------------------------------------------

  class ProcessTable {
    var procs: Procs
    var nextId: nat
    /** Spaces of reaped processes that nobody has taken yet. */
    var released: seq<nat>

    ghost predicate Valid()
      reads this
    {
      Linked(procs) && forall p :: p in procs ==> p < nextId
    }

    /** The table as it is once PID 1 exists. */
    constructor (thread: nat)
      ensures Valid() && procs == map[INIT_PID := NewPcb(None, None, thread)] && released == []
    {
      procs := map[INIT_PID := NewPcb(None, None, thread)];
      nextId, released := 2, [];
    }

    method Create(space: Option<nat>, thread: nat) returns (id: nat)
      requires Valid()
      modifies this`procs, this`nextId
      ensures Valid() && id !in old(procs) && procs == Created(old(procs), id, None, space, thread)
      ensures id == old(nextId) && nextId == id + 1
    {
      id := nextId;
      nextId := nextId + 1;
      CreatedLinked(procs, id, None, space, thread);
      procs := procs[id := NewPcb(None, space, thread)];
    }

    method CreateChild(parent: nat, space: Option<nat>, thread: nat) returns (r: Outcome<nat>)
      requires Valid()
      modifies this`procs, this`nextId
      ensures Valid() && (r.Failed? <==> parent !in old(procs)) && (r.Failed? ==> procs == old(procs))
      ensures r.Done? ==> r.value !in old(procs) && procs == Created(old(procs), r.value, Some(parent), space, thread)
    {
      if parent !in procs {
        return Failed(UnknownProcess);
      }
      CreatedLinked(procs, nextId, Some(parent), space, thread);
      var child := Create(space, thread);
      procs := procs[child := procs[child].(parent := Some(parent))];
      procs := procs[parent := procs[parent].(children := procs[parent].children + [child])];
      assert procs == Created(old(procs), child, Some(parent), space, thread);
      return Done(child);
    }

    method Exit(p: nat, status: int) returns (r: Outcome<()>)
      requires Valid()
      modifies this`procs
      ensures Valid()
      ensures r == if p !in old(procs) then Failed(UnknownProcess)
                   else if old(procs)[p].status.Some? then Failed(AlreadyExited) else Done(())
      ensures procs == if r.Done? then old(procs)[p := old(procs)[p].(status := Some(status))] else old(procs)
    {
      if p !in procs {
        return Failed(UnknownProcess);
      }
      if procs[p].status.Some? {
        return Failed(AlreadyExited);
      }
      RecordLinked(procs, p, procs[p].(status := Some(status)));
      procs := procs[p := procs[p].(status := Some(status))];
      return Done(());
    }

    method RemoveThread(p: nat, t: nat) returns (r: Outcome<bool>)
      requires Valid()
      modifies this`procs
      ensures Valid() && procs == ThreadDropped(old(procs), p, t)
      ensures r.Failed? <==> p !in old(procs) || t !in old(procs)[p].threads
      ensures r.Done? ==> (r.value <==> |old(procs)[p].threads| == 1)
    {
      if p !in procs || t !in procs[p].threads {
        return Failed(UnknownProcess);
      }
      RecordLinked(procs, p, procs[p].(threads := SwapRemoved(procs[p].threads, t)));
      procs := procs[p := procs[p].(threads := SwapRemoved(procs[p].threads, t))];
      return Done(procs[p].threads == []);
    }

    /** A parentless process with no thread, status collected and nobody holding it goes away;
        its space waits to be released. */
    method ReapIfEmpty(p: nat) returns (reaped: bool)
      requires Valid()
      modifies this`procs, this`released
      ensures reaped == CanReap(old(procs), p) && (!reaped || Barren(old(procs), p) ==> Valid())
      ensures reaped <==>
              && p in old(procs) && old(procs)[p].parent.None? && old(procs)[p].threads == []
              && old(procs)[p].status.Some? && old(procs)[p].references == 0 && old(procs)[p].waiters == []
      ensures procs == Reaped(old(procs), p) && released == old(released) + ReapedSpace(old(procs), p)
    {
      if !CanReap(procs, p) {
        return false;
      }
      assert Barren(procs, p) ==> Linked(Reaped(procs, p)) by {
        if Barren(procs, p) {
          ReapedLinked(procs, p);
        }
      }
      if procs[p].space.Some? {
        released := released + [procs[p].space.value];
      }
      procs := map q | q in procs && q != p :: procs[q];
      ForgetChild(p);
      assert procs == Reaped(old(procs), p);
      return true;
    }

    /** No children list names `p` any more. */
    method ForgetChild(p: nat)
      modifies this`procs
      ensures procs.Keys == old(procs).Keys
      ensures forall q :: q in procs ==> procs[q] == old(procs)[q].(children := Without(old(procs)[q].children, p))
    {
      var todo := procs.Keys;
      while todo != {}
        invariant todo <= procs.Keys && procs.Keys == old(procs).Keys
        invariant forall q :: q in todo ==> procs[q] == old(procs)[q]
        invariant forall q :: q in procs && q !in todo ==>
          procs[q] == old(procs)[q].(children := Without(old(procs)[q].children, p))
        decreases |todo|
      {
        var q :| q in todo;
        procs := procs[q := procs[q].(children := Without(procs[q].children, p))];
        todo := todo - {q};
      }
    }

    /** Collects an exited child's status for its parent, and reaps it if nothing holds it. */
    method WaitChild(p: nat, c: nat) returns (r: Outcome<int>)
      requires Valid()
      modifies this`procs, this`released
      ensures r.Done? <==> CanCollect(old(procs), p, c)
      ensures r == Failed(NotExited) <==>
              && c in old(procs) && old(procs)[c].parent == Some(p) && old(procs)[c].threads == []
              && old(procs)[c].status.None?
      ensures r.Failed? ==> r.error == NotExited || r.error == UnknownProcess
      ensures r.Failed? || Barren(old(procs), c) ==> Valid()
      ensures r.Failed? ==> procs == old(procs) && released == old(released)
      ensures r.Done? ==> Some(r.value) == old(procs)[c].status && procs == Reaped(Disowned(old(procs), p, c), c)
      ensures r.Done? ==> released == old(released) + ReapedSpace(Disowned(old(procs), p, c), c)
    {
      if c !in procs || procs[c].parent != Some(p) || procs[c].threads != [] {
        return Failed(UnknownProcess);
      }
      if procs[c].status.None? {
        return Failed(NotExited);
      }
      if p !in procs {
        return Failed(UnknownProcess);
      }
      DisownedLinked(procs, p, c);
      var status := procs[c].status.value;
      procs := procs[p := procs[p].(children := Without(procs[p].children, c))];
      procs := procs[c := procs[c].(parent := None)];
      var reaped := ReapIfEmpty(c);
      return Done(status);
    }

    /** The children of `p` become init's. */
    method ReparentChildren(p: nat)
      requires Valid()
      modifies this`procs
      ensures Valid() && procs == Reparented(old(procs), p, INIT_PID)
    {
      if p == INIT_PID || p !in procs {
        return;
      }
      ReparentedLinked(procs, p);
      var orphans := procs[p].children;
      procs := procs[p := procs[p].(children := [])];
      Adopt(orphans);
      procs := procs[INIT_PID := procs[INIT_PID].(children := procs[INIT_PID].children + orphans)];
      assert procs == Reparented(old(procs), p, INIT_PID);
    }

    method Adopt(orphans: seq<nat>)
      modifies this`procs
      ensures procs.Keys == old(procs).Keys
      ensures forall q :: q in procs ==>
        procs[q] == old(procs)[q].(parent := if q in orphans then Some(INIT_PID) else old(procs)[q].parent)
    {
      var i := 0;
      while i < |orphans|
        invariant i <= |orphans| && procs.Keys == old(procs).Keys
        invariant forall q :: q in procs ==>
          procs[q] == old(procs)[q].(parent := if q in orphans[..i] then Some(INIT_PID) else old(procs)[q].parent)
      {
        assert orphans[..i + 1] == orphans[..i] + [orphans[i]];
        if orphans[i] in procs {
          procs := procs[orphans[i] := procs[orphans[i]].(parent := Some(INIT_PID))];
        }
        i := i + 1;
      }
      assert orphans[..i] == orphans;
    }

    method ExitedChild(p: nat) returns (r: Option<nat>)
      ensures r == if p in procs then FirstExited(procs, procs[p].children) else None
      ensures r.Some? ==> p in procs && OldestGone(procs, procs[p].children, r.value)
      ensures r.None? <==> p in procs ==> AllStay(procs, procs[p].children)
    {
      if p in procs {
        ghost var first := FirstExited(procs, procs[p].children);
        FirstExitedIs(procs, procs[p].children, if first.Some? then first.value else 0);
      }
      if p !in procs {
        return None;
      }
      var children, i := procs[p].children, 0;
      while i < |children|
        invariant i <= |children| && FirstExited(procs, children) == FirstExited(procs, children[i..])
      {
        if Collectable(procs, children[i]) {
          return Some(children[i]);
        }
        assert children[i..][1..] == children[i + 1..];
        i := i + 1;
      }
      return None;
    }

    /** Each released space is handed out once. */
    method TakeReleasedSpaces() returns (spaces: seq<nat>)
      modifies this`released
      ensures spaces == old(released) && released == []
    {
      spaces, released := released, [];
    }
  }
}
