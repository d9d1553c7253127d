/**
 * Descriptor tables and the system calls that create, spread and drop
 * capabilities. Every operation keeps the reference counts exact and the
 * permissions within bounds.
 */
module Descriptors {
  import opened Objects

  datatype Status = Ok | EBADF | EIO | EPERM | EINVAL | EAGAIN | ENOMEM | EBUSY

  /** The index a descriptor number is resolved to, if it passes the bounds check. */
  function Dereference(fd: int): (index: int)
  {
    if fd < 0 || fd > DESC_NUM then -1 else fd
  }

  /** The bounds check lets through exactly one number that is not in the table. */
  lemma DereferenceIff(fd: int)
    ensures (Dereference(fd) >= 0 ==> Dereference(fd) < DESC_NUM) <==> fd != DESC_NUM
  {}

  /** Between system calls: nothing is half closed, and the only references in hand are descriptor copies. */
  ghost predicate Quiet(s: Objs, b: Books) {
    Invariant(s, b) && b.dying == {} && forall r <- b.extra :: r.Pending? && !r.receives
  }

  predicate Holds(s: Objs, p: Oid, fd: int) {
    IsLive(s, p) && IsOpenSlot(s, p, fd)
  }

  /** Permissions lie within those of the object's type, and an object has at most one owner descriptor. */
  ghost predicate Grants(s: Objs) {
    && (forall p, fd :: Holds(s, p, fd) ==>
          && s[p].table[fd].target in s
          && s[p].table[fd].perms <= AllPermissions(s[s[p].table[fd].target].kind))
    && (forall p, fd, q, ge, o :: Owns(s, p, fd, o) && Owns(s, q, ge, o) ==> p == q && fd == ge)
  }

  /** Slot fd of p is the owner descriptor of o. */
  ghost predicate Owns(s: Objs, p: Oid, fd: int, o: Oid) {
    Holds(s, p, fd) && s[p].table[fd].owner && s[p].table[fd].target == o
  }

  /** Closing, destroying and freeing gives nothing to anyone. */
  lemma CascadeGrants(s: Objs, u: Objs, asked: set<Oid>)
    requires Grants(s) && Cascaded(s, u, asked)
    ensures Grants(u)
  {
    forall p, fd | Holds(u, p, fd)
      ensures Holds(s, p, fd) && u[p].table == s[p].table
      ensures u[p].table[fd].target in u ==>
                u[u[p].table[fd].target].kind == s[u[p].table[fd].target].kind
    {
      assert CascadedOne(s[p], u[p], p in asked);
      var o := u[p].table[fd].target;
      if o in u { assert CascadedOne(s[o], u[o], o in asked); }
    }
    assert forall p, fd, o :: Owns(u, p, fd, o) ==> Owns(s, p, fd, o);
  }

  /** A running thread t in a live process p: who makes a system call. */
  predicate Caller(s: Objs, p: Oid, t: Oid) {
    IsLive(s, p) && s[p].kind.Process? && IsRunning(s, t) && s[t].process == p
  }

  /** Nobody has stopped running. */
  ghost predicate RunnersStay(s: Objs, u: Objs) {
    forall t :: IsRunning(s, t) ==> IsRunning(u, t)
  }

  ghost predicate OthersRun(s: Objs, u: Objs, t: Oid) {
    forall x :: x != t && IsRunning(s, x) ==> IsRunning(u, x)
  }

  lemma CascadeRunners(s: Objs, u: Objs, asked: set<Oid>)
    requires Cascaded(s, u, asked)
    ensures RunnersStay(s, u) && RunnersStay(u, s)
  {
    assert forall t <- s :: CascadedOne(s[t], u[t], t in asked);
  }

  /** Whoever runs can make a system call. */
  lemma RunningCalls(s: Objs, t: Oid)
    requires Housed(s) && IsRunning(s, t)
    ensures Caller(s, s[t].process, t)
  {
    assert HousedAt(s, t);
  }

  /** A process with a running thread outlives anything but its own destruction. */
  lemma CallerSurvives(s: Objs, u: Objs, c: Books, p: Oid, t: Oid)
    requires Caller(s, p, t) && Cascaded(s, u, {}) && Invariant(u, c)
    ensures Caller(u, p, t)
  {
    assert CascadedOne(s[p], u[p], false) && CascadedOne(s[t], u[t], false);
    assert IsRef(u, c.extra, ProcRef(t));
    ReferencedInUse(u, c, ProcRef(t));
  }

  ghost predicate Ready(k: ObjectTable)
    reads k
  {
    Quiet(k.objs, k.books) && Grants(k.objs) && Housed(k.objs)
  }

  /** Every slot held after is a slot held before. */
  ghost predicate NothingGranted(s: Objs, u: Objs) {
    forall p, fd :: Holds(u, p, fd) ==> Holds(s, p, fd) && u[p].table[fd] == s[p].table[fd]
  }

  lemma CascadeGrantsNothing(s: Objs, u: Objs, asked: set<Oid>)
    requires Cascaded(s, u, asked)
    ensures NothingGranted(s, u)
  {
    forall p, fd | Holds(u, p, fd) ensures Holds(s, p, fd) && u[p].table[fd] == s[p].table[fd] {
      assert CascadedOne(s[p], u[p], p in asked);
    }
  }

  /**
   * Dereference a descriptor and take a reference on its object. A descriptor
   * whose object has been destroyed is closed on the spot.
   */
  method AccessObject(k: ObjectTable, p: Oid, t: Oid, fd: int) returns (status: Status, copy: Descriptor, ghost y: Ref)
    requires Ready(k) && Caller(k.objs, p, t) && fd != DESC_NUM
    modifies k
    ensures Ready(k) && Caller(k.objs, p, t) && NothingGranted(old(k.objs), k.objs)
    ensures RunnersStay(old(k.objs), k.objs)
    ensures status == Ok <==> Holds(old(k.objs), p, fd) && !old(k.objs[k.objs[p].table[fd].target].destroyed)
    ensures status == Ok ==> var o := copy.target;
              && copy == old(k.objs[p].table[fd]) && IsLive(k.objs, o)
              && o in old(k.objs) && k.objs == Bumped(old(k.objs), o, 1)
              && y.Pending? && y.target == o && !y.receives && y !in old(k.books.refs) && y !in old(k.books.extra)
              && k.books.extra == old(k.books.extra) + {y} && k.books.refs == old(k.books.refs) + {y}
              && SlotRef(p, fd) in k.books.refs
    ensures status != Ok ==> k.books.extra == old(k.books.extra)
    ensures status == EBADF <==>
              !(0 <= fd < |old(k.objs[p].table)| && old(k.objs[p].table[fd].state) in {StateOpen, StateDestroyed})
    ensures status == EBADF ==> k.objs == old(k.objs)
    ensures status == EIO ==>
              && 0 <= fd < |old(k.objs[p].table)| == |k.objs[p].table|
              && k.objs[p].table == old(k.objs[p].table)[fd := k.objs[p].table[fd]]
    ensures status in {Ok, EBADF, EIO}
  {
    copy, y := CLEARED, SelfRef(0);
    var index := Dereference(fd);
    if index < 0 {
      return EBADF, copy, y;
    }
    ghost var s0 := k.objs;
    assert Orderly(k.objs, k.books.dying, p);
    var desc := k.objs[p].table[index];
    if desc.state.StateDestroyed? {
      return EIO, copy, y;
    }
    if !desc.state.StateOpen? {
      return EBADF, copy, y;
    }
    assert Holds(k.objs, p, fd) && IsRef(k.objs, k.books.extra, SlotRef(p, fd));
    ReferencedInUse(k.objs, k.books, SlotRef(p, fd));
    if k.objs[desc.target].destroyed {
      MoveSlot(k, p, t, index, desc.(state := StateDestroyed));
      assert CascadedOne(WithSlot(s0, p, index, desc.(state := StateDestroyed))[p], k.objs[p], false);
      return EIO, copy, y;
    }
    y := k.AddRef(desc.target);
    CountersGrants(s0, k.objs);
    SameHoused(s0, k.objs);
    return Ok, desc, y;
  }

  lemma CountersGrants(s: Objs, u: Objs)
    requires Grants(s) && SameShape(s, u)
    ensures Grants(u) && NothingGranted(s, u)
  {
    assert forall p, fd :: Holds(u, p, fd) <==> Holds(s, p, fd);
    LessGrants(s, u);
  }

  /** Fewer slots on the same objects are still within bounds. */
  lemma LessGrants(s: Objs, u: Objs)
    requires Grants(s) && NothingGranted(s, u)
    requires s.Keys <= u.Keys && forall o <- s :: u[o].kind == s[o].kind
    ensures Grants(u)
  {
    assert forall p, fd, o :: Owns(u, p, fd, o) ==> Owns(s, p, fd, o);
  }

  /** Overwrite an open slot and close what it held. */
  method MoveSlot(k: ObjectTable, p: Oid, t: Oid, fd: nat, d: Descriptor)
    requires Ready(k) && Caller(k.objs, p, t) && Holds(k.objs, p, fd) && !d.state.StateOpen?
    modifies k
    ensures Ready(k) && Caller(k.objs, p, t) && k.books.extra == old(k.books.extra)
    ensures RunnersStay(old(k.objs), k.objs)
    ensures Cascaded(WithSlot(old(k.objs), p, fd, d), k.objs, {})
    ensures NothingGranted(old(k.objs), k.objs)
  {
    var was := k.objs[p].table[fd];
    CloseSlotKeeps(k.objs, k.books, p, fd, d);
    ghost var y := Pending(k.books.next, was.target, Receive in was.perms);
    ghost var x := SlotRef(p, fd);
    k.books := k.books.(refs := k.books.refs - {x} + {y}, extra := k.books.extra + {y}, next := k.books.next + 1);
    k.objs := k.objs[p := k.objs[p].(table := k.objs[p].table[fd := d])];
    ghost var v := k.objs;
    FewerGrants(old(k.objs), p, fd, d);
    SameHoused(old(k.objs), v);
    k.Close(was, y);
    CascadeHoused(v, k.objs, k.books, {});
    CascadeGrants(v, k.objs, {});
    CascadeGrantsNothing(v, k.objs, {});
    CallerSurvives(v, k.objs, k.books, p, t);
  }

  lemma FewerGrants(s: Objs, p: Oid, fd: nat, d: Descriptor)
    requires Grants(s) && p in s && fd < |s[p].table| && !d.state.StateOpen?
    ensures Grants(WithSlot(s, p, fd, d)) && NothingGranted(s, WithSlot(s, p, fd, d))
  {
    var u := WithSlot(s, p, fd, d);
    forall q, ge | Holds(u, q, ge) ensures Holds(s, q, ge) && u[q].table[ge] == s[q].table[ge] {}
    LessGrants(s, u);
  }

  ghost function Bumped(s: Objs, o: Oid, n: int): Objs
    requires o in s
  {
    s[o := s[o].(refCount := s[o].refCount + n)]
  }

  /** Drop a descriptor copy. If the object is referenced elsewhere the count goes back and nothing else happens. */
  method Unreference(k: ObjectTable, p: Oid, t: Oid, copy: Descriptor, ghost y: Ref)
    requires Ready(k) && Caller(k.objs, p, t)
    requires y in k.books.extra && y.Pending? && y.target == copy.target
    modifies k
    ensures Ready(k) && Caller(k.objs, p, t) && NothingGranted(old(k.objs), k.objs)
    ensures RunnersStay(old(k.objs), k.objs)
    ensures k.books.extra == old(k.books.extra) - {y}
    ensures copy.target in old(k.objs) && Cascaded(old(k.objs), k.objs, {})
    ensures old(k.objs[copy.target].refCount) > 1 ==>
              && k.objs == Bumped(old(k.objs), copy.target, -1)
              && k.books.refs == old(k.books.refs) - {y}
  {
    ghost var s := k.objs;
    k.SubRef(copy.target, y);
    CascadeHoused(s, k.objs, k.books, {});
    CascadeGrants(s, k.objs, {});
    CascadeGrantsNothing(s, k.objs, {});
    CallerSurvives(s, k.objs, k.books, p, t);
  }

  lemma TwoRefs(s: Objs, b: Books, x: Ref, y: Ref)
    requires Invariant(s, b) && x in b.extra && x.Pending? && y in b.refs && x != y
    requires HasTarget(s, y) && Target(s, y) == x.target
    ensures x in b.refs && x.target in s && s[x.target].refCount > 1
  {
    assert IsRef(s, b.extra, x);
    assert Sound(s, x);
    assert Counted(s, b.refs, x.target);
    var both := Pointing(s, b.refs, x.target);
    assert both == (both - {x, y}) + {x} + {y};
  }

  /** Reserve a free slot. */
  method ReserveUnused(k: ObjectTable, p: Oid, fd: int) returns (status: Status)
    requires Ready(k) && IsLive(k.objs, p) && k.objs[p].kind.Process? && fd != DESC_NUM
    modifies k
    ensures Ready(k) && k.books == old(k.books)
    ensures status == Ok <==> 0 <= fd < |old(k.objs[p].table)| && old(k.objs[p].table[fd].state.StateFree?)
    ensures if status == Ok
            then k.objs == WithSlot(old(k.objs), p, fd, old(k.objs[p].table[fd]).(state := StateReserved))
            else status == EBADF && k.objs == old(k.objs)
  {
    assert Orderly(k.objs, k.books.dying, p);
    var index := Dereference(fd);
    if index < 0 || !k.objs[p].table[index].state.StateFree? {
      return EBADF;
    }
    var d := k.objs[p].table[index].(state := StateReserved);
    ClosedSlotKeeps(k.objs, k.books, p, index, d);
    FewerGrants(k.objs, p, index, d);
    k.objs := k.objs[p := k.objs[p].(table := k.objs[p].table[index := d])];
    SameHoused(old(k.objs), k.objs);
    return Ok;
  }

  method FreeReservation(k: ObjectTable, p: Oid, fd: nat)
    requires Ready(k) && IsLive(k.objs, p) && fd < |k.objs[p].table| && k.objs[p].table[fd].state.StateReserved?
    modifies k
    ensures Ready(k) && k.books == old(k.books)
    ensures k.objs == WithSlot(old(k.objs), p, fd, CLEARED)
  {
    ClosedSlotKeeps(k.objs, k.books, p, fd, CLEARED);
    FewerGrants(k.objs, p, fd, CLEARED);
    k.objs := k.objs[p := k.objs[p].(table := k.objs[p].table[fd := CLEARED])];
    SameHoused(old(k.objs), k.objs);
  }

  /** What may be put in a slot: permissions of the type, and an owner descriptor only for an object without one. */
  ghost predicate Grantable(s: Objs, d: Descriptor) {
    && d.target in s && d.perms <= AllPermissions(s[d.target].kind)
    && (d.owner ==> forall p, fd :: !Owns(s, p, fd, d.target))
  }

  /** Open a reserved slot. */
  method OpenDescriptor(k: ObjectTable, p: Oid, fd: nat, d: Descriptor)
    requires Ready(k) && IsLive(k.objs, p) && fd < |k.objs[p].table| && k.objs[p].table[fd].state.StateReserved?
    requires Grantable(k.objs, d) && CanOpen(k.objs, d)
    modifies k
    ensures Ready(k)
    ensures k.objs == WithOpenSlot(old(k.objs), p, fd, d.(state := StateOpen))
    ensures k.books == old(k.books).(refs := old(k.books.refs) + {SlotRef(p, fd)})
  {
    var e := d.(state := StateOpen);
    assert Orderly(k.objs, k.books.dying, p);
    OpenSlotKeeps(k.objs, k.books, p, fd, e);
    MoreGrants(k.objs, p, fd, e);
    k.books := k.books.(refs := k.books.refs + {SlotRef(p, fd)});
    k.objs := k.objs[p := k.objs[p].(table := k.objs[p].table[fd := e])];
    k.objs := k.objs[d.target := Opened(k.objs[d.target], e)];
    SameHoused(old(k.objs), k.objs);
  }

  lemma MoreGrants(s: Objs, p: Oid, fd: nat, d: Descriptor)
    requires Grants(s) && IsLive(s, p) && s[p].kind.Process? && fd < |s[p].table| && !s[p].table[fd].state.StateOpen?
    requires Grantable(s, d) && CanOpen(s, d) && d.state.StateOpen?
    ensures var u := WithOpenSlot(s, p, fd, d);
            Grants(u) && Holds(u, p, fd) && u[p].table[fd] == d && GrantedOnly(s, u, p, fd)
  {
    var u := WithOpenSlot(s, p, fd, d);
    forall q, ge | Holds(u, q, ge)
      ensures (q == p && ge == fd) || (Holds(s, q, ge) && u[q].table[ge] == s[q].table[ge])
    {}
    assert u.Keys == s.Keys && forall o <- s :: u[o].kind == s[o].kind;
    forall q, ge, r, h, o | Owns(u, q, ge, o) && Owns(u, r, h, o) ensures q == r && ge == h {
      assert (q == p && ge == fd) || Owns(s, q, ge, o);
      assert (r == p && h == fd) || Owns(s, r, h, o);
    }
  }

  /** Every slot held after was held before, except one. */
  ghost predicate GrantedOnly(s: Objs, u: Objs, p: Oid, fd: int) {
    forall q, ge :: Holds(u, q, ge) && !(q == p && ge == fd) ==> Holds(s, q, ge) && u[q].table[ge] == s[q].table[ge]
  }

  /** Close a descriptor: the slot is free again, and what it held loses a reference. */
  method CloseDescriptor(k: ObjectTable, p: Oid, t: Oid, fd: int) returns (status: Status)
    requires Ready(k) && Caller(k.objs, p, t) && fd != DESC_NUM
    modifies k
    ensures Ready(k) && Caller(k.objs, p, t) && NothingGranted(old(k.objs), k.objs)
    ensures RunnersStay(old(k.objs), k.objs)
    ensures k.books.extra == old(k.books.extra)
    ensures status == Ok <==>
              0 <= fd < |old(k.objs[p].table)| && old(k.objs[p].table[fd].state) in {StateOpen, StateDestroyed}
    ensures if status == Ok then Cascaded(WithSlot(old(k.objs), p, fd, CLEARED), k.objs, {})
            else status == EBADF && k.objs == old(k.objs)
  {
    assert Orderly(k.objs, k.books.dying, p);
    var index := Dereference(fd);
    if index < 0 || k.objs[p].table[index].state !in {StateOpen, StateDestroyed} {
      return EBADF;
    }
    if k.objs[p].table[index].state.StateOpen? {
      MoveSlot(k, p, t, index, CLEARED);
    } else {
      ClosedSlotKeeps(k.objs, k.books, p, index, CLEARED);
      FewerGrants(k.objs, p, index, CLEARED);
      k.objs := k.objs[p := k.objs[p].(table := k.objs[p].table[index := CLEARED])];
      SameHoused(old(k.objs), k.objs);
    }
    return Ok;
  }

  // ---- The first process

  const SELF_PROCESS: nat := 0
  const MAIN_THREAD: nat := 1

  /** The table of the first process: itself and its main thread, with all permissions, owned by nobody. */
  function FirstTable(): seq<Descriptor> {
    seq(DESC_NUM, i =>
      if i == SELF_PROCESS then Descriptor(StateOpen, 0, false, AllPermissions(Process), 0)
      else if i == MAIN_THREAD then Descriptor(StateOpen, 1, false, AllPermissions(Thread), 0)
      else CLEARED)
  }

  /** Process 0 with its thread 1 running. */
  function FirstObjs(): Objs {
    map[0 := Obj(Process, true, 2, false, 0, [], [], 1, FirstTable(), false, 0),
        1 := Obj(Thread, true, 2, false, 0, [], [], 0, [], true, 0)]
  }

  ghost function FirstBooks(): Books {
    Books({SlotRef(0, SELF_PROCESS), SlotRef(0, MAIN_THREAD), SelfRef(1), ProcRef(1)}, {}, 0, {})
  }

  lemma FirstTracked()
    ensures Tracked(FirstObjs(), {}, FirstBooks().refs)
    ensures forall r <- FirstBooks().refs :: Sound(FirstObjs(), r)
    ensures forall p, fd :: Holds(FirstObjs(), p, fd) <==> p == 0 && (fd == SELF_PROCESS || fd == MAIN_THREAD)
  {
    var s, b := FirstObjs(), FirstBooks();
    assert forall fd :: IsOpenSlot(s, 0, fd) <==> fd == SELF_PROCESS || fd == MAIN_THREAD;
    forall r ensures r in b.refs <==> IsRef(s, {}, r) {}
    assert Receive !in AllPermissions(Process) && Receive !in AllPermissions(Thread);
    assert !Receives(s, SlotRef(0, SELF_PROCESS)) && !Receives(s, SlotRef(0, MAIN_THREAD));
    forall r <- b.refs ensures Sound(s, r) {}
  }

  lemma FirstCounted(o: Oid)
    requires o in FirstObjs()
    ensures Counted(FirstObjs(), FirstBooks().refs, o) && Orderly(FirstObjs(), {}, o)
  {
    var s, b := FirstObjs(), FirstBooks();
    assert Pointing(s, b.refs, 0) == {SlotRef(0, SELF_PROCESS), ProcRef(1)};
    assert Pointing(s, b.refs, 1) == {SlotRef(0, MAIN_THREAD), SelfRef(1)};
    assert ThreadsOf(s, 0) == {1};
    assert o == 0 || o == 1;
  }

  lemma FirstIsReady()
    ensures Quiet(FirstObjs(), FirstBooks()) && Grants(FirstObjs()) && Housed(FirstObjs()) && IsRunning(FirstObjs(), 1)
  {
    FirstTracked();
    forall o | o in FirstObjs()
      ensures Counted(FirstObjs(), FirstBooks().refs, o) && Orderly(FirstObjs(), {}, o)
    {
      FirstCounted(o);
    }
  }

  method Boot() returns (k: ObjectTable)
    ensures fresh(k) && Ready(k) && IsRunning(k.objs, 1) && k.objs == FirstObjs() && k.books.extra == {}
  {
    FirstIsReady();
    k := new ObjectTable(FirstObjs(), FirstBooks());
  }

  // ---- Spreading capabilities

  /** When minting succeeds: an owner descriptor, permissions of the type, a process that lets itself be given descriptors, a free slot there. */
  ghost predicate CanMint(s: Objs, p: Oid, owner: int, processFd: int, fd: int, perms: set<Perm>) {
    && Holds(s, p, owner) && IsLive(s, s[p].table[owner].target)
    && s[p].table[owner].owner
    && perms != {} && perms <= AllPermissions(s[s[p].table[owner].target].kind)
    && CanPlace(s, p, processFd, fd)
  }

  ghost predicate CanPlace(s: Objs, p: Oid, processFd: int, fd: int) {
    && Holds(s, p, processFd) && IsLive(s, s[p].table[processFd].target)
    && var q := s[p].table[processFd].target;
       && s[q].kind.Process? && Open in s[p].table[processFd].perms
       && 0 <= fd < |s[q].table| && s[q].table[fd].state.StateFree?
  }

  /** What accessing a descriptor reports. */
  ghost function AccessStatus(s: Objs, p: Oid, fd: int): Status
    requires p in s
  {
    if !(0 <= fd < |s[p].table| && s[p].table[fd].state in {StateOpen, StateDestroyed}) then EBADF
    else if Holds(s, p, fd) && IsLive(s, s[p].table[fd].target) then Ok
    else EIO
  }

  /** What opening slot fd of the process that a descriptor refers to reports. */
  ghost function PlaceStatus(s: Objs, p: Oid, processFd: int, fd: int): Status
    requires p in s
  {
    if AccessStatus(s, p, processFd) != Ok then AccessStatus(s, p, processFd)
    else
      var d := s[p].table[processFd];
      if !s[d.target].kind.Process? then EBADF
      else if Open !in d.perms then EPERM
      else if 0 <= fd < |s[d.target].table| && s[d.target].table[fd].state.StateFree? then Ok
      else EBADF
  }

  ghost function MintStatus(s: Objs, p: Oid, owner: int, processFd: int, fd: int, perms: set<Perm>): Status
    requires p in s
  {
    if AccessStatus(s, p, owner) != Ok then AccessStatus(s, p, owner)
    else if perms == {} || !(perms <= AllPermissions(s[s[p].table[owner].target].kind)) then EINVAL
    else if !s[p].table[owner].owner then EPERM
    else PlaceStatus(s, p, processFd, fd)
  }

  ghost function DupStatus(s: Objs, p: Oid, processFd: int, src: int, dest: int): Status
    requires p in s
  {
    if AccessStatus(s, p, processFd) != Ok then AccessStatus(s, p, processFd)
    else
      var d := s[p].table[processFd];
      if !s[d.target].kind.Process? then EBADF
      else if Open !in d.perms then EPERM
      else if AccessStatus(s, p, src) != Ok then AccessStatus(s, p, src)
      else if s[p].table[src].owner then EBADF
      else PlaceStatus(s, p, processFd, dest)
  }

  /** A call succeeds exactly if every check passes. */
  lemma StatusIff(s: Objs, p: Oid, owner: int, processFd: int, fd: int, perms: set<Perm>)
    requires p in s
    ensures PlaceStatus(s, p, processFd, fd) == Ok <==> CanPlace(s, p, processFd, fd)
    ensures MintStatus(s, p, owner, processFd, fd, perms) == Ok <==> CanMint(s, p, owner, processFd, fd, perms)
    ensures DupStatus(s, p, processFd, owner, fd) == Ok <==> CanDup(s, p, processFd, owner, fd)
  {
  }

  /** A reference count does not decide who may mint. */
  lemma CanMintBumped(s: Objs, o: Oid, p: Oid, owner: int, processFd: int, fd: int, perms: set<Perm>)
    requires o in s
    ensures CanMint(Bumped(s, o, 1), p, owner, processFd, fd, perms) <==> CanMint(s, p, owner, processFd, fd, perms)
  {}

  lemma StatusBumped(s: Objs, o: Oid, p: Oid, owner: int, processFd: int, fd: int, perms: set<Perm>)
    requires o in s && p in s
    ensures MintStatus(Bumped(s, o, 1), p, owner, processFd, fd, perms) == MintStatus(s, p, owner, processFd, fd, perms)
    ensures DupStatus(Bumped(s, o, 1), p, processFd, owner, fd) == DupStatus(s, p, processFd, owner, fd)
  {
    PlaceBumped(s, o, p, processFd, fd);
    AccessBumped(s, o, p, owner);
    AccessBumped(s, o, p, processFd);
  }

  lemma AccessBumped(s: Objs, o: Oid, p: Oid, fd: int)
    requires o in s && p in s
    ensures AccessStatus(Bumped(s, o, 1), p, fd) == AccessStatus(s, p, fd)
  {}

  lemma PlaceBumped(s: Objs, o: Oid, p: Oid, processFd: int, fd: int)
    requires o in s && p in s
    ensures PlaceStatus(Bumped(s, o, 1), p, processFd, fd) == PlaceStatus(s, p, processFd, fd)
  {}

  /** Put a descriptor in a free slot of the process that a descriptor copy refers to. */
  method Place(k: ObjectTable, targetDesc: Descriptor, fd: int, d: Descriptor) returns (status: Status)
    requires Ready(k) && IsLive(k.objs, targetDesc.target) && fd != DESC_NUM
    requires k.objs[targetDesc.target].kind.Process? && Grantable(k.objs, d) && !d.owner && CanOpen(k.objs, d)
    requires IsLive(k.objs, d.target)
    modifies k
    ensures Ready(k)
    ensures status == Ok <==>
              0 <= fd < |old(k.objs[targetDesc.target].table)| && old(k.objs[targetDesc.target].table[fd].state.StateFree?)
    ensures status in {Ok, EBADF}
    ensures if status == Ok
            then && k.objs == WithOpenSlot(old(k.objs), targetDesc.target, fd, d.(state := StateOpen))
                 && k.books == old(k.books).(refs := old(k.books.refs) + {SlotRef(targetDesc.target, fd)})
            else k.objs == old(k.objs) && k.books == old(k.books)
  {
    var q := targetDesc.target;
    ghost var s := k.objs;
    status := ReserveUnused(k, q, fd);
    if status != Ok {
      return;
    }
    SlotTwice(s, q, fd, s[q].table[fd].(state := StateReserved), d.(state := StateOpen));
    OpenDescriptor(k, q, fd, d);
  }

  lemma SlotTwice(s: Objs, q: Oid, fd: nat, r: Descriptor, d: Descriptor)
    requires q in s && fd < |s[q].table| && d.target in s
    ensures WithOpenSlot(WithSlot(s, q, fd, r), q, fd, d) == WithOpenSlot(s, q, fd, d)
  {
    assert s[q].table[fd := r][fd := d] == s[q].table[fd := d];
    assert WithSlot(WithSlot(s, q, fd, r), q, fd, d) == WithSlot(s, q, fd, d);
  }

  /** A reference that is taken before a slot is opened and dropped after leaves no trace. */
  lemma Undo(s: Objs, o: Oid, q: Oid, fd: nat, d: Descriptor)
    requires o in s && q in s && fd < |s[q].table| && d.target in s
    ensures Bumped(WithOpenSlot(Bumped(s, o, 1), q, fd, d), o, -1) == WithOpenSlot(s, q, fd, d)
  {
    var u, v := Bumped(WithOpenSlot(Bumped(s, o, 1), q, fd, d), o, -1), WithOpenSlot(s, q, fd, d);
    assert u.Keys == v.Keys;
    forall r <- u ensures u[r] == v[r] {}
  }

  /** After a slot was opened, an open slot of the caller still keeps its object referenced. */
  lemma StillReferenced(s: Objs, u: Objs, b: Books, p: Oid, held: int, y: Ref, q: Oid, fd: nat, d: Descriptor)
    requires Holds(s, p, held) && q in s && fd < |s[q].table| && !s[q].table[fd].state.StateOpen? && d.target in s
    requires u == WithOpenSlot(s, q, fd, d) && Invariant(u, b)
    requires y in b.extra && y.Pending? && y.target == s[p].table[held].target
    requires SlotRef(p, held) in b.refs
    ensures y.target in u && u[y.target].refCount > 1
  {
    assert u[p].table[held] == s[p].table[held];
    TwoRefs(u, b, y, SlotRef(p, held));
  }

  /** Drop the copy that was taken before a slot was opened. */
  method UnreferenceAfter(k: ObjectTable, p: Oid, t: Oid, copy: Descriptor, ghost y: Ref,
                          ghost s: Objs, ghost held: int, ghost q: Oid, ghost fd: nat, ghost d: Descriptor)
    requires Ready(k) && Caller(k.objs, p, t) && y in k.books.extra && y.Pending? && y.target == copy.target
    requires Holds(s, p, held) && s[p].table[held] == copy && SlotRef(p, held) in k.books.refs
    requires copy.target in s && q in s && fd < |s[q].table| && !s[q].table[fd].state.StateOpen? && d.target in s
    requires k.objs == WithOpenSlot(Bumped(s, copy.target, 1), q, fd, d)
    modifies k
    ensures Ready(k) && Caller(k.objs, p, t) && k.objs == WithOpenSlot(s, q, fd, d)
    ensures k.books.extra == old(k.books.extra) - {y} && k.books.refs == old(k.books.refs) - {y}
  {
    StillReferenced(Bumped(s, copy.target, 1), k.objs, k.books, p, held, y, q, fd, d);
    Undo(s, copy.target, q, fd, d);
    Unreference(k, p, t, copy, y);
  }

  /** Mint: a descriptor with chosen permissions, made from the owner descriptor, into another process. */
  method Mint(k: ObjectTable, p: Oid, t: Oid, owner: int, processFd: int, fd: int, perms: set<Perm>, cookie: int)
    returns (status: Status)
    requires Ready(k) && Caller(k.objs, p, t) && owner != DESC_NUM && processFd != DESC_NUM && fd != DESC_NUM
    modifies k
    ensures Ready(k) && Caller(k.objs, p, t) && k.books.extra == old(k.books.extra)
    ensures RunnersStay(old(k.objs), k.objs)
    ensures status == MintStatus(old(k.objs), p, owner, processFd, fd, perms)
    ensures status == Ok <==> CanMint(old(k.objs), p, owner, processFd, fd, perms)
    ensures status == Ok ==> k.objs == WithOpenSlot(old(k.objs), old(k.objs[p].table[processFd].target), fd,
              Descriptor(StateOpen, old(k.objs[p].table[owner].target), false, perms, cookie))
    ensures status != Ok ==> NothingGranted(old(k.objs), k.objs)
  {
    ghost var s := k.objs;
    var ownerDesc;
    ghost var y;
    status, ownerDesc, y := AccessObject(k, p, t, owner);
    if status != Ok {
      return;
    }
    ghost var s1 := k.objs;
    CanMintBumped(s, ownerDesc.target, p, owner, processFd, fd, perms);
    StatusBumped(s, ownerDesc.target, p, owner, processFd, fd, perms);
    status := MintWithOwner(k, p, t, ownerDesc, y, owner, processFd, fd, perms, cookie);
    if status == Ok {
      UnreferenceAfter(k, p, t, ownerDesc, y, s, owner, s[p].table[processFd].target, fd,
                       Descriptor(StateOpen, ownerDesc.target, false, perms, cookie));
      return;
    }
    Unreference(k, p, t, ownerDesc, y);
  }

  method MintWithOwner(k: ObjectTable, p: Oid, t: Oid, ownerDesc: Descriptor, ghost y: Ref,
                       ghost owner: int, processFd: int, fd: int, perms: set<Perm>, cookie: int)
    returns (status: Status)
    requires Ready(k) && Caller(k.objs, p, t) && processFd != DESC_NUM && fd != DESC_NUM
    requires Holds(k.objs, p, owner) && ownerDesc == k.objs[p].table[owner] && IsLive(k.objs, ownerDesc.target)
    requires y in k.books.extra && y.Pending? && y.target == ownerDesc.target
    modifies k
    ensures Ready(k) && Caller(k.objs, p, t) && k.books.extra == old(k.books.extra)
    ensures RunnersStay(old(k.objs), k.objs)
    ensures status == MintStatus(old(k.objs), p, owner, processFd, fd, perms)
    ensures status == Ok <==> CanMint(old(k.objs), p, owner, processFd, fd, perms)
    ensures status == Ok ==> old(k.books.refs) <= k.books.refs
    ensures status == Ok ==> k.objs == WithOpenSlot(old(k.objs), old(k.objs[p].table[processFd].target), fd,
              Descriptor(StateOpen, ownerDesc.target, false, perms, cookie))
    ensures status != Ok ==> NothingGranted(old(k.objs), k.objs)
  {
    StatusIff(k.objs, p, owner, processFd, fd, perms);
    if !(perms <= AllPermissions(k.objs[ownerDesc.target].kind)) {
      return EINVAL;
    }
    if perms == {} {
      return EINVAL;
    }
    if !ownerDesc.owner {
      return EPERM;
    }
    assert IsRef(k.objs, k.books.extra, y);
    ReferencedInUse(k.objs, k.books, y);
    status := MintInto(k, p, t, processFd, fd, Descriptor(StateOpen, ownerDesc.target, false, perms, cookie));
  }

  method MintInto(k: ObjectTable, p: Oid, t: Oid, processFd: int, fd: int, d: Descriptor)
    returns (status: Status)
    requires Ready(k) && Caller(k.objs, p, t) && processFd != DESC_NUM && fd != DESC_NUM
    requires Grantable(k.objs, d) && !d.owner && IsLive(k.objs, d.target) && d.state.StateOpen?
    requires k.objs[d.target].refCount > 0
    modifies k
    ensures Ready(k) && Caller(k.objs, p, t) && k.books.extra == old(k.books.extra)
    ensures RunnersStay(old(k.objs), k.objs)
    ensures status == PlaceStatus(old(k.objs), p, processFd, fd)
    ensures status == Ok ==> CanPlace(old(k.objs), p, processFd, fd) && old(k.books.refs) <= k.books.refs
    ensures status == Ok ==> k.objs == WithOpenSlot(old(k.objs), old(k.objs[p].table[processFd].target), fd, d)
    ensures status != Ok ==> NothingGranted(old(k.objs), k.objs)
  {
    ghost var s := k.objs;
    var targetDesc;
    ghost var z;
    status, targetDesc, z := AccessObject(k, p, t, processFd);
    if status != Ok {
      return;
    }
    assert Grantable(k.objs, d);
    status := MintWithTarget(k, targetDesc, fd, d);
    if status == Ok {
      UnreferenceAfter(k, p, t, targetDesc, z, s, processFd, targetDesc.target, fd, d);
      OpenSlotRunners(s, targetDesc.target, fd, d);
      return;
    }
    Unreference(k, p, t, targetDesc, z);
  }

  lemma OpenSlotRunners(s: Objs, p: Oid, fd: nat, d: Descriptor)
    requires p in s && fd < |s[p].table| && d.target in s
    ensures RunnersStay(s, WithOpenSlot(s, p, fd, d))
  {}

  method MintWithTarget(k: ObjectTable, targetDesc: Descriptor, fd: int, d: Descriptor) returns (status: Status)
    requires Ready(k) && IsLive(k.objs, targetDesc.target) && fd != DESC_NUM
    requires Grantable(k.objs, d) && !d.owner && CanOpen(k.objs, d) && IsLive(k.objs, d.target) && d.state.StateOpen?
    modifies k
    ensures Ready(k)
    ensures var q := targetDesc.target;
            status == (if !old(k.objs[q].kind.Process?) then EBADF
                       else if Open !in targetDesc.perms then EPERM
                       else if 0 <= fd < |old(k.objs[q].table)| && old(k.objs[q].table[fd].state.StateFree?) then Ok
                       else EBADF)
    ensures if status == Ok
            then && k.objs == WithOpenSlot(old(k.objs), targetDesc.target, fd, d)
                 && k.books == old(k.books).(refs := old(k.books.refs) + {SlotRef(targetDesc.target, fd)})
            else k.objs == old(k.objs) && k.books == old(k.books)
  {
    if !k.objs[targetDesc.target].kind.Process? {
      return EBADF;
    }
    if Open !in targetDesc.perms {
      return EPERM;
    }
    status := Place(k, targetDesc, fd, d);
  }

  /** When duplicating succeeds: a descriptor that is not the owner's, and a process and slot to put it in. */
  ghost predicate CanDup(s: Objs, p: Oid, processFd: int, src: int, dest: int) {
    && Holds(s, p, src) && IsLive(s, s[p].table[src].target) && !s[p].table[src].owner
    && CanPlace(s, p, processFd, dest)
  }

  /** Dup: a copy of a descriptor, permissions and cookie included, into another process. */
  method Dup(k: ObjectTable, p: Oid, t: Oid, processFd: int, src: int, dest: int) returns (status: Status)
    requires Ready(k) && Caller(k.objs, p, t) && processFd != DESC_NUM && src != DESC_NUM && dest != DESC_NUM
    modifies k
    ensures Ready(k) && Caller(k.objs, p, t) && k.books.extra == old(k.books.extra)
    ensures RunnersStay(old(k.objs), k.objs)
    ensures status == DupStatus(old(k.objs), p, processFd, src, dest)
    ensures status == Ok <==> CanDup(old(k.objs), p, processFd, src, dest)
    ensures status == Ok ==> k.objs == WithOpenSlot(old(k.objs), old(k.objs[p].table[processFd].target), dest,
              old(k.objs[p].table[src]))
    ensures status != Ok ==> NothingGranted(old(k.objs), k.objs)
  {
    ghost var s := k.objs;
    var targetDesc;
    ghost var z;
    status, targetDesc, z := AccessObject(k, p, t, processFd);
    if status != Ok {
      return;
    }
    ghost var s1 := k.objs;
    var q := targetDesc.target;
    assert CanDup(s1, p, processFd, src, dest) <==> CanDup(s, p, processFd, src, dest);
    StatusBumped(s, q, p, src, processFd, dest, {});
    if !k.objs[q].kind.Process? {
      status := EBADF;
    } else if Open !in targetDesc.perms {
      status := EPERM;
    } else {
      status := DupWithTarget(k, p, t, targetDesc, processFd, src, dest);
      if status == Ok {
        UnreferenceAfter(k, p, t, targetDesc, z, s, processFd, q, dest, s[p].table[src]);
        return;
      }
    }
    Unreference(k, p, t, targetDesc, z);
  }

  method DupWithTarget(k: ObjectTable, p: Oid, t: Oid, targetDesc: Descriptor,
                       ghost processFd: int, src: int, dest: int)
    returns (status: Status)
    requires Ready(k) && Caller(k.objs, p, t) && src != DESC_NUM && dest != DESC_NUM
    requires Holds(k.objs, p, processFd) && targetDesc == k.objs[p].table[processFd]
    requires IsLive(k.objs, targetDesc.target) && k.objs[targetDesc.target].kind.Process? && Open in targetDesc.perms
    modifies k
    ensures Ready(k) && Caller(k.objs, p, t) && k.books.extra == old(k.books.extra)
    ensures RunnersStay(old(k.objs), k.objs)
    ensures status == DupStatus(old(k.objs), p, processFd, src, dest)
    ensures status == Ok <==> CanDup(old(k.objs), p, processFd, src, dest)
    ensures status == Ok ==> old(k.books.refs) <= k.books.refs
    ensures status == Ok ==> k.objs == WithOpenSlot(old(k.objs), targetDesc.target, dest, old(k.objs[p].table[src]))
    ensures status != Ok ==> NothingGranted(old(k.objs), k.objs)
  {
    ghost var s := k.objs;
    var srcDesc;
    ghost var y;
    status, srcDesc, y := AccessObject(k, p, t, src);
    if status != Ok {
      return;
    }
    ghost var s1 := k.objs;
    status := DupHeld(k, p, t, targetDesc, srcDesc, y, s, processFd, src, dest);
    if status != Ok {
      NothingThen(s, s1, k.objs);
    }
  }

  /** With a reference to the object held for the time of the call */
  method DupHeld(k: ObjectTable, p: Oid, t: Oid, targetDesc: Descriptor, srcDesc: Descriptor,
                 ghost y: Ref, ghost s: Objs, ghost processFd: int, ghost src: int, dest: int)
    returns (status: Status)
    requires Ready(k) && Caller(k.objs, p, t) && dest != DESC_NUM
    requires Holds(s, p, src) && s[p].table[src] == srcDesc && srcDesc.target in s && IsLive(k.objs, srcDesc.target)
    requires k.objs == Bumped(s, srcDesc.target, 1)
    requires y in k.books.extra && y in k.books.refs && y.Pending? && y.target == srcDesc.target && !y.receives
    requires SlotRef(p, src) in k.books.refs
    requires Holds(s, p, processFd) && targetDesc == s[p].table[processFd]
    requires IsLive(s, targetDesc.target) && s[targetDesc.target].kind.Process? && Open in targetDesc.perms
    modifies k
    ensures Ready(k) && Caller(k.objs, p, t) && k.books.extra == old(k.books.extra) - {y}
    ensures RunnersStay(old(k.objs), k.objs)
    ensures status == DupStatus(s, p, processFd, src, dest)
    ensures status == Ok <==> CanDup(s, p, processFd, src, dest)
    ensures status == Ok ==> old(k.books.refs) - {y} <= k.books.refs
    ensures status == Ok ==> k.objs == WithOpenSlot(s, targetDesc.target, dest, srcDesc)
    ensures status != Ok ==> NothingGranted(old(k.objs), k.objs)
  {
    assert IsRef(k.objs, k.books.extra, y);
    ReferencedInUse(k.objs, k.books, y);
    DupIff(s, srcDesc.target, p, processFd, src, dest);
    status := DupWithSource(k, targetDesc, srcDesc, dest);
    if status == Ok {
      UnreferenceAfter(k, p, t, srcDesc, y, s, src, targetDesc.target, dest, srcDesc);
      return;
    }
    Unreference(k, p, t, srcDesc, y);
  }

  /** With the target process accepted and the source live, what is left to decide is the owner flag and the slot. */
  lemma DupIff(s: Objs, o: Oid, p: Oid, processFd: int, src: int, dest: int)
    requires Holds(s, p, src) && s[p].table[src].target == o && IsLive(s, o)
    requires Holds(s, p, processFd) && IsLive(s, s[p].table[processFd].target)
    requires s[s[p].table[processFd].target].kind.Process? && Open in s[p].table[processFd].perms
    ensures CanDup(s, p, processFd, src, dest) <==>
              var u := Bumped(s, o, 1);
              && !s[p].table[src].owner
              && 0 <= dest < |u[s[p].table[processFd].target].table|
              && u[s[p].table[processFd].target].table[dest].state.StateFree?
  {}

  method DupWithSource(k: ObjectTable, targetDesc: Descriptor, srcDesc: Descriptor, dest: int) returns (status: Status)
    requires Ready(k) && IsLive(k.objs, targetDesc.target) && k.objs[targetDesc.target].kind.Process? && dest != DESC_NUM
    requires IsLive(k.objs, srcDesc.target) && k.objs[srcDesc.target].refCount > 0 && srcDesc.state.StateOpen?
    requires srcDesc.perms <= AllPermissions(k.objs[srcDesc.target].kind)
    modifies k
    ensures Ready(k)
    ensures status == Ok <==>
              && !srcDesc.owner && 0 <= dest < |old(k.objs[targetDesc.target].table)|
              && old(k.objs[targetDesc.target].table[dest].state.StateFree?)
    ensures status in {Ok, EBADF}
    ensures if status == Ok
            then && k.objs == WithOpenSlot(old(k.objs), targetDesc.target, dest, srcDesc)
                 && k.books == old(k.books).(refs := old(k.books.refs) + {SlotRef(targetDesc.target, dest)})
            else k.objs == old(k.objs) && k.books == old(k.books)
  {
    if srcDesc.owner {
      return EBADF;
    }
    status := Place(k, targetDesc, dest, srcDesc);
  }

  // ---- Creating objects

  /** What the allocator returned: nothing, or the address of an object that is not in use. */
  datatype Allocation = NoMemory | At(o: Oid)

  predicate FromCache(s: Objs, a: Allocation, kind: Kind) {
    a.At? && a.o in s ==> s[a.o].kind == kind && !s[a.o].inUse
  }

  /** Nothing refers to an address that has never been an object. */
  lemma NewIsUnknown(s: Objs, b: Books, o: Oid)
    requires Quiet(s, b) && Housed(s) && o !in s
    ensures Unknown(s, b, o)
  {
    forall t <- s | s[t].started ensures s[t].process != o {
      assert HousedAt(s, t) && Orderly(s, b.dying, t);
    }
  }

  /** An object as the cache constructor sets it up. */
  function Constructed(kind: Kind): Obj {
    Obj(kind, false, 0, false, 0, [], [], 0, if kind.Process? then seq(DESC_NUM, _ => CLEARED) else [], false, 0)
  }

  /**
   * Run-time initialization. For an endpoint only the header flags are reset: the
   * counts and lists are relied on to be in their constructed state.
   */
  function Initialized(was: Obj, process: Oid): Obj {
    match was.kind
    case Endpoint => was.(destroyed := false)
    case Process => was.(destroyed := false, running := 0, table := seq(DESC_NUM, _ => CLEARED))
    case Thread => Constructed(Thread).(process := process)
  }

  /** An object fresh from its cache is in its constructed state, whether or not it was used before. */
  lemma CacheKeepsConstructed(s: Objs, b: Books, o: Oid, process: Oid)
    requires Invariant(s, b) && o in s && !s[o].inUse
    ensures var n := Initialized(s[o], process);
            && n.refCount == 0 && n.receivers == 0 && n.sendList == n.recvList == []
            && !n.destroyed && !n.started && !n.inUse
            && (n.kind.Endpoint? ==> n == Constructed(Endpoint).(running := n.running, process := n.process))
  {
    NoneTo(s, b, o);
    assert Orderly(s, b.dying, o) && Counted(s, b.refs, o);
  }

  method Renew(k: ObjectTable, o: Oid, kind: Kind, process: Oid)
    requires Ready(k) && FromCache(k.objs, At(o), kind)
    requires kind.Thread? ==> process in k.objs && k.objs[process].kind.Process?
    modifies k
    ensures Ready(k) && k.books == old(k.books) && NothingGranted(old(k.objs), k.objs)
    ensures k.objs == old(k.objs)[o := Initialized(if o in old(k.objs) then old(k.objs[o]) else Constructed(kind), process)]
    ensures var d := Descriptor(StateOpen, o, true, AllPermissions(kind), 0);
            Grantable(k.objs, d) && CanOpen(k.objs, d) && k.objs[o].kind == kind && !k.objs[o].inUse
    ensures k.objs[o].refCount == 0 && k.objs[o].receivers == 0
  {
    ghost var s := k.objs;
    var was := if o in k.objs then k.objs[o] else Constructed(kind);
    if o in k.objs {
      CacheKeepsConstructed(k.objs, k.books, o, process);
    } else {
      NewIsUnknown(k.objs, k.books, o);
    }
    RenewKeeps(k.objs, k.books, o, Initialized(was, process));
    RenewHoused(k.objs, o, Initialized(was, process));
    NoHolds(k.objs, k.books, o);
    k.objs := k.objs[o := Initialized(was, process)];
    assert forall p, fd :: Holds(k.objs, p, fd) ==> Holds(s, p, fd) && k.objs[p] == s[p];
    LessGrants(s, k.objs);
  }

  /** No live table refers to an object that is not in use. */
  lemma NoHolds(s: Objs, b: Books, o: Oid)
    requires Invariant(s, b) && (o in s ==> !s[o].inUse)
    ensures forall p, fd :: Holds(s, p, fd) ==> s[p].table[fd].target != o
  {
    forall p, fd | Holds(s, p, fd) ensures s[p].table[fd].target != o {
      assert IsRef(s, b.extra, SlotRef(p, fd));
      ReferencedInUse(s, b, SlotRef(p, fd));
    }
  }

  /** A new object, with its owner descriptor in a slot of p. */
  ghost function Created(s: Objs, p: Oid, fd: nat, o: Oid, kind: Kind, process: Oid): Objs
    requires p in s && p != o && fd < |s[p].table|
  {
    WithOpenSlot(Renewed(s, o, kind, process), p, fd, OwnerOf(o, kind))
  }

  ghost function Renewed(s: Objs, o: Oid, kind: Kind, process: Oid): Objs {
    s[o := Initialized(if o in s then s[o] else Constructed(kind), process)]
  }

  function OwnerOf(o: Oid, kind: Kind): Descriptor {
    Descriptor(StateOpen, o, true, AllPermissions(kind), 0)
  }

  /** Open the owner descriptor of a new object in a slot that is reserved for it. */
  method OpenNew(k: ObjectTable, p: Oid, t: Oid, fd: nat, o: Oid, kind: Kind, process: Oid)
    requires Ready(k) && Caller(k.objs, p, t) && FromCache(k.objs, At(o), kind)
    requires fd < |k.objs[p].table| && k.objs[p].table[fd].state.StateReserved?
    requires kind.Thread? ==> process in k.objs && k.objs[process].kind.Process?
    modifies k
    ensures Ready(k) && k.books.extra == old(k.books.extra) && old(k.books.refs) <= k.books.refs
    ensures o != p && k.objs == Created(old(k.objs), p, fd, o, kind, process)
  {
    NoneToCaller(k.objs, k.books, p, t, o);
    Renew(k, o, kind, process);
    OpenDescriptor(k, p, fd, OwnerOf(o, kind));
  }

  /** What a new object changes: it has one reference, the slot that owns it is the only new one, and everybody goes on. */
  ghost predicate IsCreation(s: Objs, u: Objs, p: Oid, fd: int, o: Oid, kind: Kind, process: Oid) {
    && Holds(u, p, fd) && u[p].table[fd] == OwnerOf(o, kind) && GrantedOnly(s, u, p, fd)
    && o in u && u[o].kind == kind && u[o].refCount == 1 && (kind.Endpoint? ==> u[o].receivers == 1)
    && (kind.Thread? ==> u[o].process == process) && (o in s ==> !s[o].inUse)
    && RunnersStay(s, u)
  }

  lemma CreatedIs(s: Objs, b: Books, p: Oid, t: Oid, fd: nat, o: Oid, kind: Kind, process: Oid)
    requires Invariant(s, b) && Caller(s, p, t) && FromCache(s, At(o), kind) && fd < |s[p].table|
    ensures o != p && IsCreation(s, Created(s, p, fd, o, kind, process), p, fd, o, kind, process)
    ensures Caller(Created(s, p, fd, o, kind, process), p, t)
  {
    NoneToCaller(s, b, p, t, o);
    NotRunning(s, b, o);
    if o in s {
      CacheKeepsConstructed(s, b, o, process);
    }
    CreatedGrants(s, p, fd, o, kind, process);
  }

  lemma CreatedGrants(s: Objs, p: Oid, fd: nat, o: Oid, kind: Kind, process: Oid)
    requires FromCache(s, At(o), kind) && p in s && p != o && fd < |s[p].table|
    ensures GrantedOnly(s, Created(s, p, fd, o, kind, process), p, fd)
  {
    var u := Created(s, p, fd, o, kind, process);
    assert forall ge :: !IsOpenSlot(u, o, ge);
    assert forall q, ge :: Holds(u, q, ge) && !(q == p && ge == fd) ==> q != o && u[q].table[ge] == s[q].table[ge];
  }

  /** A slot that was reserved before is not told from one that was not. */
  lemma ReservedCreated(s: Objs, p: Oid, fd: nat, d: Descriptor, o: Oid, kind: Kind, process: Oid)
    requires p in s && p != o && fd < |s[p].table|
    ensures Created(WithSlot(s, p, fd, d), p, fd, o, kind, process) == Created(s, p, fd, o, kind, process)
  {
    var u, v := Created(WithSlot(s, p, fd, d), p, fd, o, kind, process), Created(s, p, fd, o, kind, process);
    assert s[p].table[fd := d][fd := OwnerOf(o, kind)] == s[p].table[fd := OwnerOf(o, kind)];
    assert u.Keys == v.Keys;
    forall r <- u ensures u[r] == v[r] {}
  }

  lemma NotRunning(s: Objs, b: Books, o: Oid)
    requires Invariant(s, b) && (o in s ==> !s[o].inUse)
    ensures !IsRunning(s, o)
  {
    if IsRunning(s, o) {
      RunningInUse(s, b, o);
    }
  }

  lemma RunningInUse(s: Objs, b: Books, t: Oid)
    requires Invariant(s, b) && IsRunning(s, t)
    ensures s[t].inUse
  {
    assert IsRef(s, b.extra, SelfRef(t));
    ReferencedInUse(s, b, SelfRef(t));
  }

  lemma NoneToCaller(s: Objs, b: Books, p: Oid, t: Oid, o: Oid)
    requires Invariant(s, b) && Caller(s, p, t) && (o in s ==> !s[o].inUse)
    ensures o != p && o != t
  {
    RunningInUse(s, b, t);
  }

  /** Whether slot fd of a process can be reserved. */
  ghost predicate IsFree(s: Objs, p: Oid, fd: int)
    requires p in s
  {
    0 <= fd < |s[p].table| && s[p].table[fd].state.StateFree?
  }

  ghost function CreateStatus(s: Objs, p: Oid, fd: int, a: Allocation): Status
    requires p in s
  {
    if !IsFree(s, p, fd) then EBADF else if a.NoMemory? then EAGAIN else Ok
  }

  method CreateEndpoint(k: ObjectTable, p: Oid, t: Oid, fd: int, a: Allocation) returns (status: Status)
    requires Ready(k) && Caller(k.objs, p, t) && fd != DESC_NUM && FromCache(k.objs, a, Endpoint)
    modifies k
    ensures Ready(k) && Caller(k.objs, p, t) && k.books.extra == old(k.books.extra)
    ensures RunnersStay(old(k.objs), k.objs)
    ensures status == CreateStatus(old(k.objs), p, fd, a)
    ensures status == Ok ==>
              && a.o != p && k.objs == Created(old(k.objs), p, fd, a.o, Endpoint, 0)
              && IsCreation(old(k.objs), k.objs, p, fd, a.o, Endpoint, 0)
    ensures status != Ok ==> NothingGranted(old(k.objs), k.objs)
  {
    ghost var s := k.objs;
    assert Orderly(k.objs, k.books.dying, p);
    status := ReserveUnused(k, p, fd);
    if status != Ok {
      return;
    }
    match a {
      case NoMemory =>
        FreeReservation(k, p, fd);
        status := EAGAIN;
      case At(o) =>
        CreatedIs(s, k.books, p, t, fd, o, Endpoint, 0);
        ReservedCreated(s, p, fd, k.objs[p].table[fd], o, Endpoint, 0);
        OpenNew(k, p, t, fd, o, Endpoint, 0);
    }
  }

  method CreateProcess(k: ObjectTable, p: Oid, t: Oid, fd: int, a: Allocation) returns (status: Status)
    requires Ready(k) && Caller(k.objs, p, t) && fd != DESC_NUM && FromCache(k.objs, a, Process)
    modifies k
    ensures Ready(k) && Caller(k.objs, p, t) && k.books.extra == old(k.books.extra)
    ensures RunnersStay(old(k.objs), k.objs)
    ensures status == CreateStatus(old(k.objs), p, fd, a)
    ensures status == Ok ==>
              && a.o != p && k.objs == Created(old(k.objs), p, fd, a.o, Process, 0)
              && IsCreation(old(k.objs), k.objs, p, fd, a.o, Process, 0)
    ensures status != Ok ==> NothingGranted(old(k.objs), k.objs)
  {
    ghost var s := k.objs;
    assert Orderly(k.objs, k.books.dying, p);
    status := ReserveUnused(k, p, fd);
    if status != Ok {
      return;
    }
    match a {
      case NoMemory =>
        FreeReservation(k, p, fd);
        status := EAGAIN;
      case At(o) =>
        CreatedIs(s, k.books, p, t, fd, o, Process, 0);
        ReservedCreated(s, p, fd, k.objs[p].table[fd], o, Process, 0);
        OpenNew(k, p, t, fd, o, Process, 0);
    }
  }

  lemma NothingThen(s: Objs, u: Objs, v: Objs)
    requires NothingGranted(s, u) && NothingGranted(u, v)
    ensures NothingGranted(s, v)
  {}

  /** A descriptor that lets its holder create a thread in a process. */
  ghost predicate CanCreateThread(s: Objs, p: Oid, processFd: int) {
    && Holds(s, p, processFd) && IsLive(s, s[p].table[processFd].target)
    && s[s[p].table[processFd].target].kind.Process? && {Perm.CreateThread, Open} <= s[p].table[processFd].perms
  }

  /** With the slot for it reserved. */
  ghost function CreateThreadStatus(s: Objs, p: Oid, processFd: int, a: Allocation): Status
    requires p in s
  {
    if AccessStatus(s, p, processFd) != Ok then AccessStatus(s, p, processFd)
    else if !s[s[p].table[processFd].target].kind.Process? then EBADF
    else if !({Perm.CreateThread, Open} <= s[p].table[processFd].perms) then EPERM
    else if a.NoMemory? then ENOMEM
    else Ok
  }

  /** Create a thread in another process; its descriptor goes to the caller. */
  method CreateThread(k: ObjectTable, p: Oid, t: Oid, fd: int, processFd: int, a: Allocation) returns (status: Status)
    requires Ready(k) && Caller(k.objs, p, t) && fd != DESC_NUM && processFd != DESC_NUM
    requires FromCache(k.objs, a, Thread)
    modifies k
    ensures Ready(k) && Caller(k.objs, p, t) && k.books.extra == old(k.books.extra)
    ensures RunnersStay(old(k.objs), k.objs)
    ensures status == if IsFree(old(k.objs), p, fd) then CreateThreadStatus(old(k.objs), p, processFd, a) else EBADF
    ensures status == Ok <==> IsFree(old(k.objs), p, fd) && CanCreateThread(old(k.objs), p, processFd) && a.At?
    ensures status == Ok ==> var q := old(k.objs[p].table[processFd].target);
              && a.o != p && k.objs == Created(old(k.objs), p, fd, a.o, Thread, q)
              && IsCreation(old(k.objs), k.objs, p, fd, a.o, Thread, q)
    ensures status != Ok ==> NothingGranted(old(k.objs), k.objs)
  {
    assert Orderly(k.objs, k.books.dying, p);
    status := ReserveUnused(k, p, fd);
    if status != Ok {
      return EBADF;
    }
    ghost var s, d := old(k.objs), k.objs[p].table[fd];
    ReservedSame(s, k.objs, p, fd, processFd, a);
    SlotRunners(s, p, fd, d);
    status := CreateReserved(k, p, t, fd, processFd, a);
    if status == Ok {
      ReservedCreated(s, p, fd, d, a.o, Thread, s[p].table[processFd].target);
      CreatedIs(s, old(k.books), p, t, fd, a.o, Thread, s[p].table[processFd].target);
    } else {
      SlotRunners(k.objs, p, fd, CLEARED);
      FreeReservation(k, p, fd);
    }
  }

  lemma SlotRunners(s: Objs, p: Oid, fd: nat, d: Descriptor)
    requires p in s && fd < |s[p].table|
    ensures RunnersStay(s, WithSlot(s, p, fd, d))
  {}

  /** Reserving a slot does not decide whether a thread can be created. */
  lemma ReservedSame(s: Objs, u: Objs, p: Oid, fd: nat, processFd: int, a: Allocation)
    requires p in s && fd < |s[p].table| && s[p].table[fd].state.StateFree?
    requires u == WithSlot(s, p, fd, s[p].table[fd].(state := StateReserved))
    ensures CreateThreadStatus(u, p, processFd, a) == CreateThreadStatus(s, p, processFd, a)
    ensures CanCreateThread(u, p, processFd) <==> CanCreateThread(s, p, processFd)
    ensures CanCreateThread(s, p, processFd) ==> u[p].table[processFd].target == s[p].table[processFd].target
  {}

  method CreateReserved(k: ObjectTable, p: Oid, t: Oid, fd: nat, processFd: int, a: Allocation) returns (status: Status)
    requires Ready(k) && Caller(k.objs, p, t) && processFd != DESC_NUM && FromCache(k.objs, a, Thread)
    requires fd < |k.objs[p].table| && k.objs[p].table[fd].state.StateReserved?
    modifies k
    ensures Ready(k) && Caller(k.objs, p, t) && k.books.extra == old(k.books.extra)
    ensures status == CreateThreadStatus(old(k.objs), p, processFd, a)
    ensures status == Ok <==> CanCreateThread(old(k.objs), p, processFd) && a.At?
    ensures status == Ok ==>
              a.o != p && k.objs == Created(old(k.objs), p, fd, a.o, Thread, old(k.objs[p].table[processFd].target))
    ensures status != Ok ==>
              && NothingGranted(old(k.objs), k.objs) && RunnersStay(old(k.objs), k.objs)
              && fd < |k.objs[p].table| && k.objs[p].table[fd].state.StateReserved?
  {
    var targetDesc;
    ghost var z;
    assert !Holds(k.objs, p, fd);
    status, targetDesc, z := AccessObject(k, p, t, processFd);
    if status != Ok {
      return;
    }
    ghost var s := old(k.objs);
    status := CreateWithTarget(k, p, t, fd, targetDesc, a);
    if status == Ok {
      UnreferenceCreated(k, p, t, targetDesc, z, s, processFd, fd, a.o);
      return;
    }
    ghost var s1 := k.objs;
    Unreference(k, p, t, targetDesc, z);
    assert CascadedOne(s1[p], k.objs[p], false);
  }

  /** Drop the copy that was taken before a thread was created. */
  method UnreferenceCreated(k: ObjectTable, p: Oid, t: Oid, copy: Descriptor, ghost z: Ref,
                            ghost s: Objs, ghost processFd: int, ghost fd: nat, ghost o: Oid)
    requires Ready(k) && Caller(k.objs, p, t) && z in k.books.extra && z.Pending? && z.target == copy.target
    requires Holds(s, p, processFd) && s[p].table[processFd] == copy && SlotRef(p, processFd) in k.books.refs
    requires copy.target in s && copy.target != o && processFd != fd && p != o && fd < |s[p].table|
    requires k.objs == Created(Bumped(s, copy.target, 1), p, fd, o, Thread, copy.target)
    modifies k
    ensures Ready(k) && Caller(k.objs, p, t) && k.books.extra == old(k.books.extra) - {z}
    ensures k.objs == Created(s, p, fd, o, Thread, copy.target)
  {
    CreatedReferenced(s, k.objs, k.books, p, fd, processFd, z, o);
    UndoCreated(s, copy.target, p, fd, o, Thread, copy.target);
    Unreference(k, p, t, copy, z);
  }

  /** After an object was created, the descriptor that names its process still keeps that referenced. */
  lemma CreatedReferenced(s: Objs, u: Objs, b: Books, p: Oid, fd: nat, processFd: int, z: Ref, o: Oid)
    requires Holds(s, p, processFd) && processFd != fd && p != o && fd < |s[p].table| && z in b.extra && z.Pending?
    requires var q := s[p].table[processFd].target; q in s && u == Created(Bumped(s, q, 1), p, fd, o, Thread, q) && z.target == q
    requires Invariant(u, b) && SlotRef(p, processFd) in b.refs
    ensures z.target in u && u[z.target].refCount > 1
  {
    assert u[p].table[processFd] == s[p].table[processFd];
    TwoRefs(u, b, z, SlotRef(p, processFd));
  }

  lemma UndoCreated(s: Objs, q: Oid, p: Oid, fd: nat, o: Oid, kind: Kind, process: Oid)
    requires q in s && q != o && p in s && p != o && fd < |s[p].table|
    ensures Bumped(Created(Bumped(s, q, 1), p, fd, o, kind, process), q, -1) == Created(s, p, fd, o, kind, process)
  {
    var u, v := Bumped(Created(Bumped(s, q, 1), p, fd, o, kind, process), q, -1), Created(s, p, fd, o, kind, process);
    assert u.Keys == v.Keys;
    forall r <- u ensures u[r] == v[r] {}
  }

  method CreateWithTarget(k: ObjectTable, p: Oid, t: Oid, fd: nat, targetDesc: Descriptor, a: Allocation) returns (status: Status)
    requires Ready(k) && Caller(k.objs, p, t) && FromCache(k.objs, a, Thread)
    requires fd < |k.objs[p].table| && k.objs[p].table[fd].state.StateReserved?
    requires targetDesc.target in k.objs
    modifies k
    ensures Ready(k) && Caller(k.objs, p, t) && k.books.extra == old(k.books.extra)
    ensures RunnersStay(old(k.objs), k.objs)
    ensures status == if !old(k.objs[targetDesc.target].kind.Process?) then EBADF
                      else if !({Perm.CreateThread, Open} <= targetDesc.perms) then EPERM
                      else if a.NoMemory? then ENOMEM else Ok
    ensures status == Ok ==>
              && a.o != p && k.objs == Created(old(k.objs), p, fd, a.o, Thread, targetDesc.target)
              && old(k.books.refs) <= k.books.refs
    ensures status != Ok ==> k.objs == old(k.objs) && k.books == old(k.books)
  {
    var q := targetDesc.target;
    if !k.objs[q].kind.Process? {
      return EBADF;
    }
    if !({Perm.CreateThread, Open} <= targetDesc.perms) {
      return EPERM;
    }
    if a.NoMemory? {
      return ENOMEM;
    }
    CreatedIs(k.objs, k.books, p, t, fd, a.o, Thread, q);
    OpenNew(k, p, t, fd, a.o, Thread, q);
    return Ok;
  }

  // ---- Threads, destruction

  /** A thread begins to run. */
  method RunThread(k: ObjectTable, p: Oid, t: Oid, u: Oid)
    requires Ready(k) && Caller(k.objs, p, t)
    requires u in k.objs && k.objs[u].kind.Thread? && k.objs[u].inUse && k.objs[u].refCount > 0 && !k.objs[u].started
    requires k.objs[u].process in k.objs && IsLive(k.objs, k.objs[u].process)
    modifies k
    ensures Ready(k) && Caller(k.objs, p, t) && NothingGranted(old(k.objs), k.objs)
    ensures RunnersStay(old(k.objs), k.objs)
    ensures k.objs == WithStarted(old(k.objs), u)
    ensures k.books == old(k.books).(refs := old(k.books.refs) + {SelfRef(u), ProcRef(u)})
  {
    var q := k.objs[u].process;
    StartKeepsIff(k.objs, k.books, u);
    StartGrants(k.objs, u);
    k.books := k.books.(refs := k.books.refs + {SelfRef(u), ProcRef(u)});
    k.objs := k.objs[u := k.objs[u].(started := true, refCount := k.objs[u].refCount + 1)];
    k.objs := k.objs[q := k.objs[q].(refCount := k.objs[q].refCount + 1, running := k.objs[q].running + 1)];
  }

  /** A descriptor that lets its holder start a thread that does not run. */
  predicate CanStart(s: Objs, p: Oid, fd: int) {
    && Holds(s, p, fd) && IsLive(s, s[p].table[fd].target)
    && var u := s[p].table[fd].target;
       s[u].kind.Thread? && Start in s[p].table[fd].perms && !s[u].started
  }

  ghost function StartStatus(s: Objs, p: Oid, fd: int): Status
    requires p in s
  {
    if AccessStatus(s, p, fd) != Ok || !s[s[p].table[fd].target].kind.Thread? then EBADF
    else if Start !in s[p].table[fd].perms then EPERM
    else if s[s[p].table[fd].target].started then EBUSY
    else Ok
  }

  /**
   * Start a thread. The kernel does not look at its process, so the caller must
   * see to it that the process is live.
   */
  method StartThread(k: ObjectTable, p: Oid, t: Oid, fd: int) returns (status: Status)
    requires Ready(k) && Caller(k.objs, p, t) && fd != DESC_NUM
    requires CanStart(k.objs, p, fd) ==> IsLive(k.objs, k.objs[k.objs[p].table[fd].target].process)
    modifies k
    ensures Ready(k) && Caller(k.objs, p, t) && k.books.extra == old(k.books.extra)
    ensures RunnersStay(old(k.objs), k.objs)
    ensures NothingGranted(old(k.objs), k.objs)
    ensures status == StartStatus(old(k.objs), p, fd)
    ensures status == Ok <==> CanStart(old(k.objs), p, fd)
    ensures status == Ok ==> var u := old(k.objs[p].table[fd].target);
              old(k.objs[u].process) in old(k.objs) && k.objs == WithStarted(old(k.objs), u)
  {
    ghost var s := k.objs;
    var desc;
    ghost var y;
    status, desc, y := AccessObject(k, p, t, fd);
    if status != Ok {
      return EBADF;
    }
    status := StartHeld(k, p, t, desc, y);
    if status == Ok {
      StartUnbumped(s, desc.target);
    }
    Unreference(k, p, t, desc, y);
  }

  lemma StartUnbumped(s: Objs, u: Oid)
    requires u in s && s[u].process in s
    ensures Bumped(WithStarted(Bumped(s, u, 1), u), u, -1) == WithStarted(s, u) && RunnersStay(s, WithStarted(s, u))
  {}

  /** The part with the descriptor in hand. */
  method StartHeld(k: ObjectTable, p: Oid, t: Oid, desc: Descriptor, ghost y: Ref) returns (status: Status)
    requires Ready(k) && Caller(k.objs, p, t) && IsLive(k.objs, desc.target)
    requires y in k.books.extra && y.Pending? && y.target == desc.target
    requires var u := k.objs[desc.target];
             u.kind.Thread? && Start in desc.perms && !u.started ==> IsLive(k.objs, u.process)
    modifies k
    ensures Ready(k) && Caller(k.objs, p, t) && k.books.extra == old(k.books.extra) && NothingGranted(old(k.objs), k.objs)
    ensures var u := old(k.objs[desc.target]);
            status == if !u.kind.Thread? then EBADF else if Start !in desc.perms then EPERM else if u.started then EBUSY else Ok
    ensures status == Ok ==> var u := desc.target;
              old(k.objs[u].process) in old(k.objs) && k.objs == WithStarted(old(k.objs), u) && k.objs[u].refCount > 1
    ensures status != Ok ==> k.objs == old(k.objs) && k.books == old(k.books)
  {
    var u := desc.target;
    if !k.objs[u].kind.Thread? {
      return EBADF;
    }
    if Start !in desc.perms {
      return EPERM;
    }
    if k.objs[u].started {
      return EBUSY;
    }
    assert IsRef(k.objs, k.books.extra, y);
    ReferencedInUse(k.objs, k.books, y);
    RunThread(k, p, t, u);
    TwoRefs(k.objs, k.books, y, SelfRef(u));
    return Ok;
  }

  /** Closing slot fd, as the kernel does it for any table with that slot marked open. */
  ghost function SlotClosed(s: Objs, p: Oid, fd: nat): Objs
    requires p in s && fd < |s[p].table| && s[p].table[fd].target in s
  {
    Bumped(WithSlot(s, p, fd, CLEARED), s[p].table[fd].target, -1)
  }

  /**
   * The slots of a destroyed process stay marked open although their references
   * have been dropped. A thread that is started in such a process and closes one
   * of them drops the reference again: the object then has one reference more
   * than it counts.
   */
  lemma ClosedTwice(s: Objs, b: Books, p: Oid, fd: nat)
    requires Quiet(s, b) && p in s && s[p].destroyed && IsOpenSlot(s, p, fd) && s[p].table[fd].target in s
    ensures var u, o := SlotClosed(s, p, fd), s[p].table[fd].target;
            && (forall r :: r in b.refs <==> IsRef(u, b.extra, r))
            && |Pointing(u, b.refs, o)| == u[o].refCount + 1
  {
    var u, o := SlotClosed(s, p, fd), s[p].table[fd].target;
    forall r ensures IsRef(u, b.extra, r) <==> IsRef(s, b.extra, r) {}
    forall r <- b.refs ensures Agree(s, u, r) {
      assert Sound(s, r) && IsRef(s, b.extra, r);
    }
    assert Pointing(u, b.refs, o) == Pointing(s, b.refs, o);
    assert Counted(s, b.refs, o);
  }

  /** In process 2 thread 3 is the only one that runs, slot 0 is a copy of slot 0 of process 0, and process 0 owns both. */
  ghost predicate Populated(s: Objs) {
    && Caller(s, 0, 1) && Caller(s, 2, 3) && s[2].running == 1
    && Holds(s, 2, 0) && s[2].table[0].target == 0
    && Holds(s, 0, 2) && s[0].table[2] == OwnerOf(2, Process)
    && Holds(s, 0, 3) && s[0].table[3] == OwnerOf(3, Thread)
    && IsLive(s, 3)
  }

  method CreateBoth() returns (k: ObjectTable)
    ensures fresh(k) && Ready(k) && Caller(k.objs, 0, 1)
    ensures k.objs == Created(Created(FirstObjs(), 0, 2, 2, Process, 0), 0, 3, 3, Thread, 2)
  {
    k := Boot();
    RunningCalls(k.objs, 1);
    var status := CreateProcess(k, 0, 1, 2, At(2));
    assert status == Ok;
    status := CreateThread(k, 0, 1, 3, 2, At(3));
    assert status == Ok;
  }

  /** The first process makes a process and a thread in it, gives the process a descriptor and starts the thread. */
  method Populate() returns (k: ObjectTable)
    ensures fresh(k) && Ready(k) && Populated(k.objs)
  {
    k := CreateBoth();
    ghost var s := k.objs;
    BothCreated(s);
    var status := Dup(k, 0, 1, 2, SELF_PROCESS, 0);
    Copied(s);
    status := StartThread(k, 0, 1, 3);
    Running(WithOpenSlot(s, 2, 0, s[0].table[0]));
  }

  ghost predicate BothThere(s: Objs) {
    && Caller(s, 0, 1) && IsLive(s, 2) && s[2].kind.Process? && s[2].running == 0 && |s[2].table| == DESC_NUM
    && IsLive(s, 3) && s[3].kind.Thread? && !s[3].started && s[3].process == 2
    && Holds(s, 0, 2) && s[0].table[2] == OwnerOf(2, Process)
    && Holds(s, 0, 3) && s[0].table[3] == OwnerOf(3, Thread)
  }

  lemma BothCreated(s: Objs)
    requires s == Created(Created(FirstObjs(), 0, 2, 2, Process, 0), 0, 3, 3, Thread, 2)
    ensures BothThere(s) && CanDup(s, 0, 2, SELF_PROCESS, 0) && s[0].table[0].target == 0 && s[0].table[0].state.StateOpen?
  {}

  lemma Copied(s: Objs)
    requires BothThere(s) && s[0].table[0].target == 0 && s[0].table[0].state.StateOpen?
    ensures var u := WithOpenSlot(s, 2, 0, s[0].table[0]);
            BothThere(u) && CanStart(u, 0, 3) && Holds(u, 2, 0) && u[2].table[0].target == 0
  {}

  lemma Running(s: Objs)
    requires BothThere(s) && Holds(s, 2, 0) && s[2].table[0].target == 0
    ensures Populated(WithStarted(s, 3))
  {}

  /**
   * From the first process on: a thread that was the last one of its process has
   * exited, the process is destroyed, and the thread can be started again. If it
   * is, everything is in order until it closes a descriptor of its process.
   */
  method RestartExample() returns (k: ObjectTable)
    ensures fresh(k) && Ready(k) && Caller(k.objs, 0, 1) && CanStart(k.objs, 0, 3) && k.objs[0].table[3].target == 3
    ensures k.objs[3].process == 2 && 2 in k.objs && k.objs[2].inUse && k.objs[2].destroyed
    ensures var u, c := WithStarted(k.objs, 3), k.books.(refs := k.books.refs + {SelfRef(3), ProcRef(3)});
            && Quiet(u, c) && IsRunning(u, 3) && IsOpenSlot(u, 2, 0) && u[2].table[0].target == 0 && 0 in u
            && |Pointing(SlotClosed(u, 2, 0), c.refs, 0)| == SlotClosed(u, 2, 0)[0].refCount + 1
  {
    k := Populate();
    ghost var s := k.objs;
    ExitThread(k, 2, 3);
    Aftermath(s, k.objs, k.books);
    StartKeeps(k.objs, k.books, 3);
    ClosedTwice(WithStarted(k.objs, 3), k.books.(refs := k.books.refs + {SelfRef(3), ProcRef(3)}), 2, 0);
  }

  /** What the exit of the last thread leaves of its process. */
  lemma Aftermath(s: Objs, u: Objs, b: Books)
    requires Populated(s) && Cascaded(WithExited(s, 3), u, {2}) && Invariant(u, b) && Housed(u) && !IsLive(u, 2)
    ensures Caller(u, 0, 1) && CanStart(u, 0, 3) && u[0].table[3].target == 3 && u[3].process == 2 && u[3].refCount > 0
    ensures 2 in u && u[2].inUse && u[2].destroyed && IsOpenSlot(u, 2, 0) && u[2].table[0].target == 0
  {
    var v := WithExited(s, 3);
    assert forall o <- v :: CascadedOne(v[o], u[o], o in {2});
    assert CascadedOne(v[0], u[0], false) && CascadedOne(v[1], u[1], false) && CascadedOne(v[2], u[2], true);
    assert CascadedOne(v[3], u[3], false);
    RunningCalls(u, 1);
    assert IsRef(u, b.extra, SlotRef(0, 2)) && IsRef(u, b.extra, SlotRef(0, 3));
    ReferencedInUse(u, b, SlotRef(0, 2));
    ReferencedInUse(u, b, SlotRef(0, 3));
  }

  lemma StartGrants(s: Objs, t: Oid)
    requires Grants(s) && t in s && s[t].kind.Thread? && s[t].process in s
    ensures Grants(WithStarted(s, t)) && NothingGranted(s, WithStarted(s, t))
  {
    var u := WithStarted(s, t);
    assert forall p, fd :: Holds(u, p, fd) ==> Holds(s, p, fd) && u[p].table == s[p].table;
    LessGrants(s, u);
  }

  /** A process loses a running thread; with the last one it is destroyed. */
  method RemoveRunningThread(k: ObjectTable, p: Oid, t: Oid, ghost z: Ref)
    requires Ready(k) && z in k.books.extra && z.Pending? && z.target == p
    requires p in k.objs && k.objs[p].inUse && k.objs[p].kind.Process?
    modifies k
    ensures Ready(k) && k.books.extra == old(k.books.extra) - {z}
    ensures Cascaded(old(k.objs), k.objs, {p}) && NothingGranted(old(k.objs), k.objs)
    ensures old(k.objs[p].running) < 1 ==> !IsLive(k.objs, p)
  {
    ghost var s := k.objs;
    if k.objs[p].running < 1 {
      NobodyRuns(k.objs, k.books, p);
      k.Destroy(p);
      CascadeHoused(s, k.objs, k.books, {p});
    }
    ghost var u := k.objs;
    CascadeGrants(s, u, {p});
    CascadeGrantsNothing(s, u, {p});
    k.SubRef(p, z);
    CascadeHoused(u, k.objs, k.books, {});
    CascadeGrants(u, k.objs, {});
    CascadeGrantsNothing(u, k.objs, {});
    NothingThen(s, u, k.objs);
    Widen(u, k.objs, p);
    CascadeThen(s, u, k.objs, {p});
    assert CascadedOne(u[p], k.objs[p], false);
  }

  lemma NobodyRuns(s: Objs, b: Books, p: Oid)
    requires Invariant(s, b) && p in s && s[p].kind.Process? && s[p].running < 1
    ensures forall t <- s :: IsRunning(s, t) ==> s[t].process != p
  {
    assert Counted(s, b.refs, p) && ThreadsOf(s, p) == {};
    assert forall t <- s :: IsRunning(s, t) && s[t].process == p ==> t in ThreadsOf(s, p);
  }

  lemma Widen(s: Objs, u: Objs, p: Oid)
    requires Cascaded(s, u, {})
    ensures Cascaded(s, u, {p})
  {
    forall o <- s ensures CascadedOne(s[o], u[o], o == p) {
      assert CascadedOne(s[o], u[o], false);
    }
  }

  /** The current thread exits; when it is the last one of its process, the process is destroyed. */
  method ExitThread(k: ObjectTable, p: Oid, t: Oid)
    requires Ready(k) && Caller(k.objs, p, t)
    modifies k
    ensures Ready(k) && k.books.extra == old(k.books.extra)
    ensures NothingGranted(old(k.objs), k.objs)
    ensures Cascaded(WithExited(old(k.objs), t), k.objs, {p})
    ensures !IsRunning(k.objs, t) && OthersRun(old(k.objs), k.objs, t)
    ensures old(k.objs[p].running) == 1 ==> !IsLive(k.objs, p)
  {
    ghost var s := k.objs;
    ghost var y, z := LeaveRunning(k, p, t);
    ghost var u := k.objs;
    RemoveRunningThread(k, p, t, z);
    ghost var v := k.objs;
    NothingThen(s, u, v);
    assert CascadedOne(u[t], v[t], t == p);
    k.SubRef(t, y);
    CascadeHoused(v, k.objs, k.books, {});
    CascadeGrants(v, k.objs, {});
    CascadeGrantsNothing(v, k.objs, {});
    NothingThen(s, v, k.objs);
    Widen(v, k.objs, p);
    CascadeThen(u, v, k.objs, {p});
    ExitedRunners(s, k.objs, t, p);
    assert CascadedOne(v[p], k.objs[p], false);
  }

  lemma ExitedRunners(s: Objs, u: Objs, t: Oid, p: Oid)
    requires IsRunning(s, t) && s[t].process == p && p in s && Cascaded(WithExited(s, t), u, {p})
    ensures !IsRunning(u, t) && OthersRun(s, u, t)
  {
    CascadeRunners(WithExited(s, t), u, {p});
  }

  /** The bookkeeping of an exit: the thread no longer runs, its two references are in hand. */
  method LeaveRunning(k: ObjectTable, p: Oid, t: Oid) returns (ghost y: Ref, ghost z: Ref)
    requires Ready(k) && Caller(k.objs, p, t)
    modifies k
    ensures Ready(k) && k.objs == WithExited(old(k.objs), t) && NothingGranted(old(k.objs), k.objs)
    ensures y.Pending? && z.Pending? && y.target == t && z.target == p && !y.receives && !z.receives && y != z
    ensures y !in old(k.books.extra) && z !in old(k.books.extra)
    ensures k.books.extra == old(k.books.extra) + {y, z}
    ensures k.objs[p].inUse && k.objs[p].running == old(k.objs[p].running) - 1
  {
    y, z := Pending(k.books.next, t, false), Pending(k.books.next + 1, p, false);
    ExitFresh(k.objs, k.books, t);
    assert IsRef(k.objs, k.books.extra, ProcRef(t));
    ReferencedInUse(k.objs, k.books, ProcRef(t));
    ExitKeeps(k.objs, k.books, t);
    ExitGrants(k.objs, t);
    ExitHoused(k.objs, t);
    k.books := ExitBooks(k.objs, k.books, t);
    k.objs := k.objs[t := k.objs[t].(started := false)];
    k.objs := k.objs[p := k.objs[p].(running := k.objs[p].running - 1)];
  }

  lemma ExitGrants(s: Objs, t: Oid)
    requires Grants(s) && t in s && s[t].process in s
    ensures Grants(WithExited(s, t)) && NothingGranted(s, WithExited(s, t))
  {
    var u := WithExited(s, t);
    assert forall p, fd :: Holds(u, p, fd) ==> Holds(s, p, fd) && u[p].table == s[p].table;
    LessGrants(s, u);
  }

  ghost function DestroyStatus(s: Objs, p: Oid, fd: int): Status
    requires p in s
  {
    if AccessStatus(s, p, fd) != Ok then AccessStatus(s, p, fd)
    else if !s[s[p].table[fd].target].kind.Endpoint? then EBADF
    else if !s[p].table[fd].owner then EPERM
    else Ok
  }

  /** Destroy an endpoint, through its owner descriptor. */
  method DestroyEndpoint(k: ObjectTable, p: Oid, t: Oid, fd: int) returns (status: Status)
    requires Ready(k) && Caller(k.objs, p, t) && fd != DESC_NUM
    modifies k
    ensures Ready(k) && Caller(k.objs, p, t) && k.books.extra == old(k.books.extra)
    ensures RunnersStay(old(k.objs), k.objs)
    ensures NothingGranted(old(k.objs), k.objs)
    ensures status == DestroyStatus(old(k.objs), p, fd)
    ensures status == Ok ==> var o := old(k.objs[p].table[fd].target);
              && o in k.objs && k.objs[o].destroyed && k.objs[o].sendList == k.objs[o].recvList == []
  {
    ghost var s := k.objs;
    var desc;
    ghost var y;
    status, desc, y := AccessObject(k, p, t, fd);
    if status != Ok {
      return;
    }
    status := DestroyHeld(k, p, t, desc, y);
    ghost var s1 := k.objs;
    Unreference(k, p, t, desc, y);
    assert CascadedOne(s1[desc.target], k.objs[desc.target], false);
    assert Orderly(k.objs, k.books.dying, desc.target);
  }

  /** The part with the descriptor in hand. */
  method DestroyHeld(k: ObjectTable, p: Oid, t: Oid, desc: Descriptor, ghost y: Ref) returns (status: Status)
    requires Ready(k) && Caller(k.objs, p, t) && IsLive(k.objs, desc.target)
    requires y in k.books.extra && y.Pending? && y.target == desc.target
    modifies k
    ensures Ready(k) && Caller(k.objs, p, t) && k.books.extra == old(k.books.extra)
    ensures RunnersStay(old(k.objs), k.objs) && NothingGranted(old(k.objs), k.objs)
    ensures status == if !old(k.objs[desc.target].kind.Endpoint?) then EBADF else if !desc.owner then EPERM else Ok
    ensures desc.target in k.objs && (status == Ok ==> k.objs[desc.target].destroyed)
  {
    ghost var s, o := k.objs, desc.target;
    if !k.objs[desc.target].kind.Endpoint? {
      return EBADF;
    }
    if !desc.owner {
      return EPERM;
    }
    k.Destroy(desc.target);
    assert forall x <- s :: IsRunning(s, x) ==> HousedAt(s, x);
    CascadeHoused(s, k.objs, k.books, {o});
    CascadeGrants(s, k.objs, {o});
    CascadeGrantsNothing(s, k.objs, {o});
    CascadeRunners(s, k.objs, {o});
    CallerKept(s, k.objs, k.books, p, t, o);
    return Ok;
  }

  lemma CallerKept(s: Objs, u: Objs, c: Books, p: Oid, t: Oid, o: Oid)
    requires Caller(s, p, t) && Cascaded(s, u, {o}) && Invariant(u, c) && o != p
    ensures Caller(u, p, t)
  {
    assert CascadedOne(s[p], u[p], false) && CascadedOne(s[t], u[t], t == o);
    assert IsRef(u, c.extra, ProcRef(t));
    ReferencedInUse(u, c, ProcRef(t));
  }

  // ---- Calls that block

  /** What a thread does that may have to wait, with a copy of the descriptor in hand. */
  datatype Use = UseSend | UseReceive | UseAwait

  function UseKind(use: Use): Kind {
    if use.UseAwait? then Thread else Endpoint
  }

  function UsePerm(use: Use): Perm {
    match use
    case UseSend => Send
    case UseReceive => Receive
    case UseAwait => Await
  }

  ghost function BeginStatus(s: Objs, p: Oid, fd: int, use: Use): Status
    requires p in s
  {
    if AccessStatus(s, p, fd) != Ok then (if use.UseAwait? then EBADF else AccessStatus(s, p, fd))
    else if s[s[p].table[fd].target].kind != UseKind(use) then EBADF
    else if UsePerm(use) !in s[p].table[fd].perms then EPERM
    else Ok
  }

  /** Begin to send, receive or await: a copy of the descriptor is kept, and counted, until the call is over. */
  method Begin(k: ObjectTable, p: Oid, t: Oid, fd: int, use: Use) returns (status: Status, copy: Descriptor, ghost y: Ref)
    requires Ready(k) && Caller(k.objs, p, t) && fd != DESC_NUM
    modifies k
    ensures Ready(k) && Caller(k.objs, p, t) && NothingGranted(old(k.objs), k.objs)
    ensures RunnersStay(old(k.objs), k.objs)
    ensures status == BeginStatus(old(k.objs), p, fd, use)
    ensures status == Ok ==>
              && copy == old(k.objs[p].table[fd]) && IsLive(k.objs, copy.target) && y.Pending? && y.target == copy.target
              && y !in old(k.books.extra) && k.books.extra == old(k.books.extra) + {y}
    ensures status != Ok ==> k.books.extra == old(k.books.extra)
  {
    status, copy, y := AccessObject(k, p, t, fd);
    if status != Ok {
      return if use.UseAwait? then EBADF else status, copy, y;
    }
    if k.objs[copy.target].kind != UseKind(use) {
      Unreference(k, p, t, copy, y);
      return EBADF, copy, y;
    }
    if UsePerm(use) !in copy.perms {
      Unreference(k, p, t, copy, y);
      return EPERM, copy, y;
    }
  }

  ghost predicate InSomeHand(hands: map<Oid, Ref>, r: Ref) {
    exists t <- hands :: hands[t] == r
  }

  /** The references in hand are those of the threads inside a call, one each, to the object of the call. */
  ghost predicate InCalls(s: Objs, extra: set<Ref>, inside: map<Oid, Descriptor>, hands: map<Oid, Ref>) {
    && inside.Keys == hands.Keys && (forall r :: r in extra <==> InSomeHand(hands, r))
    && (forall t <- hands :: IsRunning(s, t) && hands[t].Pending? && hands[t].target == inside[t].target)
    && (forall t <- hands, u <- hands :: hands[t] == hands[u] ==> t == u)
  }

  lemma InCallsStay(s: Objs, u: Objs, extra: set<Ref>, inside: map<Oid, Descriptor>, hands: map<Oid, Ref>, t: Oid)
    requires InCalls(s, extra, inside, hands) && OthersRun(s, u, t) && t !in inside
    ensures InCalls(u, extra, inside, hands)
  {}

  lemma InCallsMore(s: Objs, u: Objs, extra: set<Ref>, inside: map<Oid, Descriptor>, hands: map<Oid, Ref>, t: Oid, copy: Descriptor, y: Ref)
    requires InCalls(s, extra, inside, hands) && RunnersStay(s, u) && t !in inside && IsRunning(u, t)
    requires y !in extra && y.Pending? && y.target == copy.target
    ensures InCalls(u, extra + {y}, inside[t := copy], hands[t := y])
  {
    var more := hands[t := y];
    forall r ensures r in extra + {y} <==> InSomeHand(more, r) {
      assert more[t] == y && forall x <- hands :: more[x] == hands[x];
      assert forall x <- hands :: hands[x] in extra by {
        assert forall x <- hands :: InSomeHand(hands, hands[x]);
      }
    }
    assert forall x <- hands :: InSomeHand(hands, hands[x]);
  }

  lemma InCallsLess(s: Objs, u: Objs, extra: set<Ref>, inside: map<Oid, Descriptor>, hands: map<Oid, Ref>, t: Oid)
    requires InCalls(s, extra, inside, hands) && RunnersStay(s, u) && t in inside
    ensures InCalls(u, extra - {hands[t]}, inside - {t}, hands - {t})
  {
    var less := hands - {t};
    forall r ensures r in extra - {hands[t]} <==> InSomeHand(less, r) {
      if InSomeHand(hands, r) && r != hands[t] {
        var x :| x in hands && hands[x] == r;
        assert x in less && less[x] == r;
      }
      assert InSomeHand(less, r) ==> InSomeHand(hands, r);
    }
  }

  // ---- Authority over whole runs

  /**
   * What process p did to the tables: every slot held after was held before, or is
   * for an object that was not in use, or was made from a descriptor p holds, in
   * which case it is not an owner descriptor and, unless p holds the owner
   * descriptor, has no permission beyond those of the one it was made from.
   */
  ghost predicate Spread(s: Objs, u: Objs, p: Oid) {
    forall q, ge :: Holds(u, q, ge) ==> Explained(s, u[q].table[ge], p, q, ge)
  }

  ghost predicate Explained(s: Objs, d: Descriptor, p: Oid, q: Oid, ge: int) {
    || (Holds(s, q, ge) && d == s[q].table[ge])
    || (d.target in s ==> !s[d.target].inUse)
    || exists fd :: Holds(s, p, fd) && MadeFrom(d, s[p].table[fd])
  }

  predicate MadeFrom(d: Descriptor, source: Descriptor) {
    d.target == source.target && !d.owner && (source.owner || d.perms <= source.perms)
  }

  lemma PlacedSpread(s: Objs, p: Oid, fd: int, q: Oid, ge: nat, d: Descriptor)
    requires Holds(s, p, fd) && q in s && ge < |s[q].table| && d.target in s && d.state.StateOpen?
    requires MadeFrom(d, s[p].table[fd]) && IsLive(s, q) && IsLive(s, d.target)
    ensures Spread(s, WithOpenSlot(s, q, ge, d), p)
  {
    var u := WithOpenSlot(s, q, ge, d);
    forall r, h | Holds(u, r, h) ensures Explained(s, u[r].table[h], p, r, h) {
      if r == q && h == ge {
        assert MadeFrom(u[r].table[h], s[p].table[fd]);
      }
    }
  }

  /** Nobody holds the owner descriptor of o. */
  ghost predicate Unowned(s: Objs, o: Oid) {
    forall p, fd :: !Owns(s, p, fd, o)
  }

  /** The permissions on o that somebody holds. */
  ghost predicate Held(s: Objs, o: Oid, perm: Perm) {
    exists p, fd :: Holds(s, p, fd) && s[p].table[fd].target == o && perm in s[p].table[fd].perms
  }

  /** Once an object has no owner descriptor, no step brings one back or adds a permission on it. */
  lemma NoAmplification(s: Objs, u: Objs, p: Oid, o: Oid)
    requires Spread(s, u, p) && o in s && s[o].inUse && Unowned(s, o)
    ensures Unowned(u, o)
    ensures forall perm :: Held(u, o, perm) ==> Held(s, o, perm)
  {
    forall q, ge | Holds(u, q, ge) && u[q].table[ge].target == o
      ensures !u[q].table[ge].owner
      ensures forall perm <- u[q].table[ge].perms :: Held(s, o, perm)
    {
      assert Explained(s, u[q].table[ge], p, q, ge);
      assert u[q].table[ge].owner ==> Owns(s, q, ge, o);
      assert forall fd :: Holds(s, p, fd) && s[p].table[fd].owner && s[p].table[fd].target == o ==> Owns(s, p, fd, o);
    }
  }

  /** A run: every step is explained by the descriptors of the process that made it. */
  ghost predicate IsRun(trace: seq<Objs>, actors: seq<Oid>) {
    && |trace| == |actors| + 1
    && forall i :: 0 <= i < |actors| ==> Spread(trace[i], trace[i + 1], actors[i])
  }

  /** The object is in use from the i-th state of the run on. */
  ghost predicate StaysInUse(trace: seq<Objs>, i: nat, o: Oid) {
    forall j :: i <= j < |trace| ==> o in trace[j] && trace[j][o].inUse
  }

  /** What somebody may do with o in u, somebody could do in s. */
  ghost predicate NoMoreHeld(s: Objs, u: Objs, o: Oid) {
    forall perm :: Held(u, o, perm) ==> Held(s, o, perm)
  }

  lemma {:induction false} NoAmplificationOverRuns(trace: seq<Objs>, actors: seq<Oid>, i: nat, o: Oid)
    requires IsRun(trace, actors) && i <= |actors| && StaysInUse(trace, i, o) && Unowned(trace[i], o)
    ensures Unowned(trace[|actors|], o) && NoMoreHeld(trace[i], trace[|actors|], o)
    decreases |actors| - i
  {
    if i < |actors| {
      NoAmplification(trace[i], trace[i + 1], actors[i], o);
      NoAmplificationOverRuns(trace, actors, i + 1, o);
    }
  }

  datatype Syscall =
    | SysCreateEndpoint(fd: int, a: Allocation)
    | SysCreateProcess(fd: int, a: Allocation)
    | SysCreateThread(fd: int, processFd: int, a: Allocation)
    | SysMint(owner: int, processFd: int, fd: int, perms: set<Perm>, cookie: int)
    | SysDup(processFd: int, src: int, dest: int)
    | SysClose(fd: int)
    | SysDestroy(fd: int)
    | SysStart(fd: int)
    | SysExit
    | SysBegin(fd: int, use: Use)      // send, receive or await, up to where it may block
    | SysFinish                        // the rest of it

  /**
   * A running thread can make the call, or finish the one it is inside of. What
   * the model asks for is that the allocator gives out objects that are not in use,
   * that no descriptor number is the table size, and that the process of a thread
   * that is started is live.
   */
  predicate Admissible(s: Objs, inside: map<Oid, Descriptor>, t: Oid, call: Syscall) {
    && IsRunning(s, t) && (call.SysFinish? <==> t in inside)
    && match call
       case SysCreateEndpoint(fd, a) => fd != DESC_NUM && FromCache(s, a, Endpoint)
       case SysCreateProcess(fd, a) => fd != DESC_NUM && FromCache(s, a, Process)
       case SysCreateThread(fd, pf, a) => fd != DESC_NUM && pf != DESC_NUM && FromCache(s, a, Thread)
       case SysMint(o, pf, fd, _, _) => o != DESC_NUM && pf != DESC_NUM && fd != DESC_NUM
       case SysDup(pf, src, dest) => pf != DESC_NUM && src != DESC_NUM && dest != DESC_NUM
       case SysClose(fd) => fd != DESC_NUM
       case SysDestroy(fd) => fd != DESC_NUM
       case SysStart(fd) =>
         && fd != DESC_NUM
         && (CanStart(s, s[t].process, fd) ==> IsLive(s, s[s[s[t].process].table[fd].target].process))
       case SysExit => true
       case SysBegin(fd, _) => fd != DESC_NUM
       case SysFinish => true
  }

  lemma NothingSpread(s: Objs, u: Objs, p: Oid)
    requires NothingGranted(s, u)
    ensures Spread(s, u, p)
  {}

  lemma NewSpread(s: Objs, u: Objs, p: Oid, fd: int)
    requires GrantedOnly(s, u, p, fd)
    requires Holds(u, p, fd) ==> var o := u[p].table[fd].target; o in s ==> !s[o].inUse
    ensures Spread(s, u, p)
  {}

  /** Who is inside a call afterwards. */
  ghost function Inside(s: Objs, inside: map<Oid, Descriptor>, t: Oid, call: Syscall): map<Oid, Descriptor>
    requires t in s && s[t].process in s
  {
    match call
    case SysBegin(fd, use) =>
      if BeginStatus(s, s[t].process, fd, use) == Ok then inside[t := s[s[t].process].table[fd]] else inside
    case SysFinish => inside - {t}
    case _ => inside
  }

  /**
   * One system call, or one half of a call that blocks: counts and grants stay
   * right, only what the caller's descriptors allow is spread, and the references
   * in hand are those of the calls that are not over.
   */
  method Execute(k: ObjectTable, t: Oid, call: Syscall, inside: map<Oid, Descriptor>, ghost hands: map<Oid, Ref>)
    returns (inside1: map<Oid, Descriptor>, ghost hands1: map<Oid, Ref>)
    requires Ready(k) && Admissible(k.objs, inside, t, call) && InCalls(k.objs, k.books.extra, inside, hands)
    modifies k
    ensures Ready(k) && Spread(old(k.objs), k.objs, old(k.objs[t].process))
    ensures InCalls(k.objs, k.books.extra, inside1, hands1)
    ensures old(k.objs[t].process) in old(k.objs) && inside1 == Inside(old(k.objs), inside, t, call)
  {
    ghost var s, extra := k.objs, k.books.extra;
    var p := k.objs[t].process;
    RunningCalls(k.objs, t);
    inside1, hands1 := inside, hands;
    match call {
      case SysBegin(fd, use) =>
        var status, copy;
        ghost var y;
        status, copy, y := Begin(k, p, t, fd, use);
        NothingSpread(s, k.objs, p);
        if status == Ok {
          InCallsMore(s, k.objs, extra, inside, hands, t, copy, y);
          inside1, hands1 := inside[t := copy], hands[t := y];
        }
      case SysFinish =>
        Unreference(k, p, t, inside[t], hands[t]);
        NothingSpread(s, k.objs, p);
        InCallsLess(s, k.objs, extra, inside, hands, t);
        inside1, hands1 := inside - {t}, hands - {t};
      case _ =>
        ExecuteAtOnce(k, t, call);
        InCallsStay(s, k.objs, extra, inside, hands, t);
    }
  }

  /** A system call that does not block. */
  method ExecuteAtOnce(k: ObjectTable, t: Oid, call: Syscall)
    requires Ready(k) && !call.SysBegin? && Admissible(k.objs, map[], t, call)
    modifies k
    ensures Ready(k) && Spread(old(k.objs), k.objs, old(k.objs[t].process))
    ensures k.books.extra == old(k.books.extra) && OthersRun(old(k.objs), k.objs, t)
  {
    ghost var s := k.objs;
    var p := k.objs[t].process;
    RunningCalls(k.objs, t);
    match call {
      case SysMint(owner, processFd, fd, perms, cookie) =>
        var status := Mint(k, p, t, owner, processFd, fd, perms, cookie);
        if status == Ok {
          PlacedSpread(s, p, owner, s[p].table[processFd].target, fd,
                       Descriptor(StateOpen, s[p].table[owner].target, false, perms, cookie));
        } else {
          NothingSpread(s, k.objs, p);
        }
      case SysDup(processFd, src, dest) =>
        var status := Dup(k, p, t, processFd, src, dest);
        if status == Ok {
          PlacedSpread(s, p, src, s[p].table[processFd].target, dest, s[p].table[src]);
        } else {
          NothingSpread(s, k.objs, p);
        }
      case SysCreateEndpoint(fd, a) =>
        var status := CreateEndpoint(k, p, t, fd, a);
        if status == Ok { NewSpread(s, k.objs, p, fd); } else { NothingSpread(s, k.objs, p); }
      case SysCreateProcess(fd, a) =>
        var status := CreateProcess(k, p, t, fd, a);
        if status == Ok { NewSpread(s, k.objs, p, fd); } else { NothingSpread(s, k.objs, p); }
      case SysCreateThread(fd, processFd, a) =>
        var status := CreateThread(k, p, t, fd, processFd, a);
        if status == Ok { NewSpread(s, k.objs, p, fd); } else { NothingSpread(s, k.objs, p); }
      case SysClose(fd) =>
        var _ := CloseDescriptor(k, p, t, fd);
        NothingSpread(s, k.objs, p);
      case SysDestroy(fd) =>
        var _ := DestroyEndpoint(k, p, t, fd);
        NothingSpread(s, k.objs, p);
      case SysStart(fd) =>
        var _ := StartThread(k, p, t, fd);
        NothingSpread(s, k.objs, p);
      case SysExit =>
        ExitThread(k, p, t);
        NothingSpread(s, k.objs, p);
    }
  }

  /** What the first n calls of a script did. */
  ghost predicate Recorded(script: seq<(Oid, Syscall)>, n: nat, trace: seq<Objs>, calls: seq<map<Oid, Descriptor>>, actors: seq<Oid>) {
    && n <= |script| && |actors| == n && |trace| == |calls| == n + 1 && trace[0] == FirstObjs() && IsRun(trace, actors)
    && forall i :: 0 <= i < n ==> IsTurn(script[i], trace[i], calls[i], trace[i + 1], calls[i + 1])
  }

  /** A call is made if it is admissible. */
  ghost predicate IsTurn(call: (Oid, Syscall), s: Objs, inside: map<Oid, Descriptor>, u: Objs, inside1: map<Oid, Descriptor>) {
    if Admissible(s, inside, call.0, call.1)
    then s[call.0].process in s && inside1 == Inside(s, inside, call.0, call.1)
    else u == s && inside1 == inside
  }

  lemma RecordMore(script: seq<(Oid, Syscall)>, n: nat, trace: seq<Objs>, calls: seq<map<Oid, Descriptor>>, actors: seq<Oid>,
                   u: Objs, inside: map<Oid, Descriptor>, actor: Oid)
    requires n < |script| && Recorded(script, n, trace, calls, actors)
    requires Spread(trace[n], u, actor) && IsTurn(script[n], trace[n], calls[n], u, inside)
    ensures Recorded(script, n + 1, trace + [u], calls + [inside], actors + [actor])
  {}

  method Turn(k: ObjectTable, t: Oid, call: Syscall, inside: map<Oid, Descriptor>, ghost hands: map<Oid, Ref>)
    returns (inside1: map<Oid, Descriptor>, ghost hands1: map<Oid, Ref>, ghost actor: Oid)
    requires Ready(k) && InCalls(k.objs, k.books.extra, inside, hands)
    modifies k
    ensures Ready(k) && InCalls(k.objs, k.books.extra, inside1, hands1)
    ensures Spread(old(k.objs), k.objs, actor) && IsTurn((t, call), old(k.objs), inside, k.objs, inside1)
  {
    inside1, hands1, actor := inside, hands, 0;
    if Admissible(k.objs, inside, t, call) {
      actor := k.objs[t].process;
      inside1, hands1 := Execute(k, t, call, inside, hands);
    } else {
      NothingSpread(k.objs, k.objs, actor);
    }
  }

  /**
   * Any script of system calls by any threads, from the first process on; a call
   * that is not admissible is not made. Counts and grants are right at the end,
   * the references in hand are those of the threads inside a call, and an object
   * that lost its owner descriptor on the way, and stayed in use, has none and
   * nobody has a permission on it that nobody had then.
   */
  method Run(script: seq<(Oid, Syscall)>)
    returns (k: ObjectTable, inside: map<Oid, Descriptor>, ghost hands: map<Oid, Ref>,
             ghost trace: seq<Objs>, ghost calls: seq<map<Oid, Descriptor>>, ghost actors: seq<Oid>)
    ensures fresh(k) && Ready(k) && InCalls(k.objs, k.books.extra, inside, hands)
    ensures Recorded(script, |script|, trace, calls, actors) && trace[|script|] == k.objs && calls[|script|] == inside
    ensures forall i, o {:trigger StaysInUse(trace, i, o)} :: 0 <= i <= |script| && StaysInUse(trace, i, o) && Unowned(trace[i], o) ==>
              Unowned(k.objs, o) && NoMoreHeld(trace[i], k.objs, o)
  {
    k := Boot();
    inside, hands := map[], map[];
    trace, calls, actors := [k.objs], [inside], [];
    for n := 0 to |script|
      invariant fresh(k) && Ready(k) && InCalls(k.objs, k.books.extra, inside, hands)
      invariant Recorded(script, n, trace, calls, actors) && trace[n] == k.objs && calls[n] == inside
    {
      ghost var actor;
      inside, hands, actor := Turn(k, script[n].0, script[n].1, inside, hands);
      RecordMore(script, n, trace, calls, actors, k.objs, inside, actor);
      trace, calls, actors := trace + [k.objs], calls + [inside], actors + [actor];
    }
    forall i, o | 0 <= i <= |script| && StaysInUse(trace, i, o) && Unowned(trace[i], o)
      ensures Unowned(k.objs, o) && NoMoreHeld(trace[i], k.objs, o)
    {
      NoAmplificationOverRuns(trace, actors, i, o);
    }
  }
}
