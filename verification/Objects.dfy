/**
 * Kernel objects, descriptors and reference counts. Objects are records in a
 * table indexed by address; a reference is a token, so that a reference count
 * can be compared with the set of references that actually exist.
 */
module Objects {

  type Oid = int

  const DESC_NUM: nat := 12

  datatype Kind = Endpoint | Process | Thread

  /** Permission bits; `Other` stands for any bit that is not a permission (owner, state, unused). */
  datatype Perm = Send | Receive | Map | Open | CreateThread | Start | Await | Signal | Other

  function AllPermissions(kind: Kind): set<Perm> {
    match kind
    case Endpoint => {Send, Receive}
    case Process => {CreateThread, Map, Open, Signal}
    case Thread => {Start, Await, Signal}
  }

  datatype DescState = StateFree | StateReserved | StateOpen | StateDestroyed

  datatype Descriptor = Descriptor(state: DescState, target: Oid, owner: bool, perms: set<Perm>, cookie: int)

  const CLEARED := Descriptor(StateFree, 0, false, {}, 0)

  datatype Obj = Obj(
    kind: Kind,
    inUse: bool,           // false once handed back to its cache
    refCount: int,
    destroyed: bool,
    receivers: int,            // endpoint: receivers_count
    sendList: seq<Oid>,        // endpoint: threads waiting to send
    recvList: seq<Oid>,        // endpoint: threads waiting to receive
    running: int,              // process: running_threads_count
    table: seq<Descriptor>,    // process: descriptors
    started: bool,             // thread: between start and exit
    process: Oid               // thread: the process it belongs to
  )

  type Objs = map<Oid, Obj>

  /**
   * A counted reference: a slot of a descriptor table, a running thread on itself,
   * a running thread on its process, or one in the hands of kernel code (a
   * descriptor copy, or a reference that is being closed).
   */
  datatype Ref =
    | SlotRef(holder: Oid, fd: nat)
    | SelfRef(thread: Oid)
    | ProcRef(thread: Oid)
    | Pending(id: nat, target: Oid, receives: bool)

  predicate IsOpenSlot(s: Objs, p: Oid, fd: int) {
    && p in s && s[p].kind.Process? && 0 <= fd < |s[p].table|
    && s[p].table[fd].state.StateOpen?
  }

  predicate IsLive(s: Objs, o: Oid) {
    o in s && s[o].inUse && !s[o].destroyed
  }

  predicate IsRunning(s: Objs, t: Oid) {
    t in s && s[t].kind.Thread? && s[t].started
  }

  /** The references that exist: those of live tables and running threads, and the extra ones in hand. */
  ghost predicate IsRef(s: Objs, extra: set<Ref>, r: Ref) {
    || r in extra
    || match r
       case SlotRef(p, fd) => IsOpenSlot(s, p, fd) && IsLive(s, p)
       case SelfRef(t) => IsRunning(s, t)
       case ProcRef(t) => IsRunning(s, t)
       case Pending(_, _, _) => false
  }

  ghost predicate HasTarget(s: Objs, r: Ref) {
    match r
    case SlotRef(p, fd) => p in s && fd < |s[p].table|
    case SelfRef(t) => true
    case ProcRef(t) => t in s
    case Pending(_, _, _) => true
  }

  ghost function Target(s: Objs, r: Ref): Oid
    requires HasTarget(s, r)
  {
    match r
    case SlotRef(p, fd) => s[p].table[fd].target
    case SelfRef(t) => t
    case ProcRef(t) => s[t].process
    case Pending(_, o, _) => o
  }

  /** A reference that can be used to receive. */
  ghost predicate Receives(s: Objs, r: Ref)
    requires HasTarget(s, r)
  {
    match r
    case SlotRef(p, fd) => Receive in s[p].table[fd].perms
    case Pending(_, _, receives) => receives
    case _ => false
  }

  /** `refs` is the set of references that exist. */
  ghost predicate Tracked(s: Objs, extra: set<Ref>, refs: set<Ref>) {
    forall r :: r in refs <==> IsRef(s, extra, r)
  }

  ghost function Pointing(s: Objs, refs: set<Ref>, o: Oid): set<Ref> {
    set r <- refs | HasTarget(s, r) && Target(s, r) == o
  }

  ghost function Receiving(s: Objs, refs: set<Ref>, o: Oid): set<Ref> {
    set r <- refs | HasTarget(s, r) && Target(s, r) == o && Receives(s, r)
  }

  ghost function ThreadsOf(s: Objs, p: Oid): set<Oid> {
    set t | t in s && IsRunning(s, t) && s[t].process == p
  }

  // ---- The invariant

  /** The counters of an object are the numbers of references, receivers and running threads there are. */
  ghost predicate Counted(s: Objs, refs: set<Ref>, o: Oid)
    requires o in s
  {
    && s[o].refCount == |Pointing(s, refs, o)|
    && (s[o].kind.Endpoint? ==> s[o].receivers == |Receiving(s, refs, o)|)
    && (s[o].kind.Process? ==> s[o].running == |ThreadsOf(s, o)|)
  }

  /** Life-cycle facts about one object; `dying` holds those whose last reference was just dropped. */
  ghost predicate Orderly(s: Objs, dying: set<Oid>, o: Oid)
    requires o in s
  {
    && |s[o].table| == (if s[o].kind.Process? then DESC_NUM else 0)
    && (s[o].started ==> s[o].kind.Thread?)
    && (!s[o].inUse ==> s[o].refCount == 0 && s[o].receivers == 0)
    && (!s[o].inUse || s[o].destroyed ==> s[o].sendList == s[o].recvList == [])
    && (s[o].inUse && s[o].refCount == 0 <==> o in dying)
    && (s[o].kind.Endpoint? && IsLive(s, o) ==> s[o].receivers > 0)
    && (!s[o].kind.Endpoint? ==> s[o].receivers == 0)
  }

  /** The references in hand: slots of processes that are being destroyed, and pending ones. */
  ghost predicate InHand(s: Objs, next: nat, r: Ref) {
    match r
    case SlotRef(p, fd) => IsOpenSlot(s, p, fd) && s[p].destroyed
    case Pending(id, o, _) => id < next
    case _ => false
  }

  /** Kernel state that is not in the objects: which references exist, which are in hand, which objects are dying. */
  datatype Books = Books(refs: set<Ref>, extra: set<Ref>, next: nat, dying: set<Oid>)

  /** A reference is to an object, and one that receives is to an endpoint. */
  ghost predicate Sound(s: Objs, r: Ref) {
    HasTarget(s, r) && Target(s, r) in s && (Receives(s, r) ==> s[Target(s, r)].kind.Endpoint?)
  }

  ghost predicate Invariant(s: Objs, b: Books) {
    && Tracked(s, b.extra, b.refs)
    && (forall o {:trigger Counted(s, b.refs, o)} :: o in s ==> Counted(s, b.refs, o))
    && (forall o {:trigger Orderly(s, b.dying, o)} :: o in s ==> Orderly(s, b.dying, o))
    && (forall r <- b.refs :: Sound(s, r))
    && (forall r <- b.extra :: InHand(s, b.next, r))
  }

  /** A thread belongs to a process, which is live as long as the thread runs. */
  ghost predicate HousedAt(s: Objs, t: Oid)
    requires t in s
  {
    s[t].kind.Thread? ==>
      && s[t].process in s && s[s[t].process].kind.Process?
      && (s[t].started ==> IsLive(s, s[t].process))
  }

  ghost predicate Housed(s: Objs) {
    forall t {:trigger HousedAt(s, t)} :: t in s ==> HousedAt(s, t)
  }

  /** Nothing is freed while referenced. */
  lemma ReferencedInUse(s: Objs, b: Books, r: Ref)
    requires Invariant(s, b) && r in b.refs
    ensures Sound(s, r) && s[Target(s, r)].refCount > 0 && s[Target(s, r)].inUse
  {
    var o := Target(s, r);
    assert r in Pointing(s, b.refs, o);
    assert Counted(s, b.refs, o) && Orderly(s, b.dying, o);
  }

  // ---- Counting

  ghost predicate Agree(s: Objs, u: Objs, r: Ref) {
    && HasTarget(s, r) && HasTarget(u, r)
    && Target(s, r) == Target(u, r) && Receives(s, r) == Receives(u, r)
  }

  ghost function One(b: bool): nat { if b then 1 else 0 }

  /** One more reference, all others as before. */
  lemma CountAdded(s: Objs, a: set<Ref>, u: Objs, y: Ref, o: Oid)
    requires y !in a && HasTarget(u, y)
    requires forall r <- a :: Agree(s, u, r)
    ensures |Pointing(u, a + {y}, o)| == |Pointing(s, a, o)| + One(Target(u, y) == o)
    ensures |Receiving(u, a + {y}, o)| == |Receiving(s, a, o)| + One(Target(u, y) == o && Receives(u, y))
  {
    var b := a + {y};
    if Target(u, y) == o {
      assert Pointing(u, b, o) == Pointing(s, a, o) + {y};
    } else {
      assert Pointing(u, b, o) == Pointing(s, a, o);
    }
    if Target(u, y) == o && Receives(u, y) {
      assert Receiving(u, b, o) == Receiving(s, a, o) + {y};
    } else {
      assert Receiving(u, b, o) == Receiving(s, a, o);
    }
  }

  /** Counters of object q go from those of s to those of u when reference y appears. */
  ghost predicate BumpedBy(s: Objs, u: Objs, q: Oid, y: Ref)
    requires q in s && q in u && HasTarget(u, y)
  {
    && u[q].kind == s[q].kind
    && u[q].refCount == s[q].refCount + One(Target(u, y) == q)
    && (u[q].kind.Endpoint? ==> u[q].receivers == s[q].receivers + One(Target(u, y) == q && Receives(u, y)))
    && (u[q].kind.Process? ==> u[q].running - |ThreadsOf(u, q)| == s[q].running - |ThreadsOf(s, q)|)
  }

  lemma AddCounted(s: Objs, a: set<Ref>, u: Objs, y: Ref, q: Oid)
    requires y !in a && HasTarget(u, y)
    requires forall r <- a :: Agree(s, u, r)
    requires q in s && q in u && BumpedBy(s, u, q, y)
    ensures Counted(s, a, q) <==> Counted(u, a + {y}, q)
  {
    CountAdded(s, a, u, y, q);
  }

  lemma SameCounted(s: Objs, a: set<Ref>, u: Objs, q: Oid)
    requires forall r <- a :: Agree(s, u, r)
    requires q in s && q in u && s[q].kind == u[q].kind
    requires s[q].refCount == u[q].refCount && s[q].receivers == u[q].receivers && s[q].running == u[q].running
    requires ThreadsOf(s, q) == ThreadsOf(u, q)
    ensures Counted(s, a, q) <==> Counted(u, a, q)
  {
    assert Pointing(u, a, q) == Pointing(s, a, q);
    assert Receiving(u, a, q) == Receiving(s, a, q);
  }

  /** Reference x is replaced by y to the same object; only whether it receives can differ. */
  lemma SwapCounted(s: Objs, a: set<Ref>, u: Objs, x: Ref, y: Ref, q: Oid)
    requires x in a && y !in a && HasTarget(s, x) && HasTarget(u, y) && Target(s, x) == Target(u, y)
    requires forall r <- a - {x} :: Agree(s, u, r)
    requires q in s && q in u && s[q].kind == u[q].kind && s[q].refCount == u[q].refCount
    requires u[q].kind.Endpoint? ==>
               u[q].receivers + One(Target(s, x) == q && Receives(s, x))
               == s[q].receivers + One(Target(u, y) == q && Receives(u, y))
    requires u[q].running == s[q].running && ThreadsOf(s, q) == ThreadsOf(u, q)
    ensures Counted(s, a, q) <==> Counted(u, a - {x} + {y}, q)
  {
    var rest := a - {x};
    assert forall r <- rest :: Agree(s, s, r);
    CountAdded(s, rest, s, x, q);
    assert rest + {x} == a;
    CountAdded(s, rest, u, y, q);
  }

  /** Same tables, same threads, same liveness: only counters and lists differ. */
  ghost predicate SameShape(s: Objs, u: Objs) {
    && s.Keys == u.Keys
    && forall o <- s ::
         && s[o].kind == u[o].kind && s[o].inUse == u[o].inUse && s[o].destroyed == u[o].destroyed
         && s[o].table == u[o].table && s[o].started == u[o].started && s[o].process == u[o].process
  }

  lemma ShapeRefs(s: Objs, u: Objs)
    requires SameShape(s, u)
    ensures forall r, e :: IsRef(s, e, r) <==> IsRef(u, e, r)
    ensures forall r :: HasTarget(s, r) ==> Agree(s, u, r)
    ensures forall o :: ThreadsOf(s, o) == ThreadsOf(u, o)
  {}

  // ---- What each step keeps

  /** A descriptor copy takes a reference. */
  lemma TakeKeeps(s: Objs, b: Books, o: Oid)
    requires Invariant(s, b) && o in s && s[o].inUse && s[o].refCount > 0
    ensures var y := Pending(b.next, o, false);
            Invariant(s[o := s[o].(refCount := s[o].refCount + 1)],
                      b.(refs := b.refs + {y}, extra := b.extra + {y}, next := b.next + 1))
  {
    var u := s[o := s[o].(refCount := s[o].refCount + 1)];
    var y := Pending(b.next, o, false);
    ShapeRefs(s, u);
    forall q <- u ensures Counted(u, b.refs + {y}, q) {
      AddCounted(s, b.refs, u, y, q);
    }
    forall q <- u ensures Orderly(u, b.dying, q) {
      assert Orderly(s, b.dying, q);
    }
  }

  /** A reference in hand is not one of a live table. */
  lemma Untrack(s: Objs, b: Books, x: Ref)
    requires Invariant(s, b) && x in b.extra
    ensures x in b.refs && Tracked(s, b.extra - {x}, b.refs - {x})
  {
    assert InHand(s, b.next, x);
    assert IsRef(s, b.extra, x);
    assert forall r :: r != x ==> (IsRef(s, b.extra - {x}, r) <==> IsRef(s, b.extra, r));
  }

  /** Dropping a reference; if it was the last one, the object is dying. */
  lemma DropKeeps(s: Objs, b: Books, o: Oid, x: Ref)
    requires Invariant(s, b)
    requires x in b.extra && HasTarget(s, x) && Target(s, x) == o && !Receives(s, x)
    ensures o in s && s[o].refCount > 0 && s[o].inUse
    ensures Invariant(s[o := s[o].(refCount := s[o].refCount - 1)],
                      b.(refs := b.refs - {x}, extra := b.extra - {x},
                         dying := if s[o].refCount == 1 then b.dying + {o} else b.dying))
  {
    Untrack(s, b, x);
    ReferencedInUse(s, b, x);
    var u := s[o := s[o].(refCount := s[o].refCount - 1)];
    var dying := if s[o].refCount == 1 then b.dying + {o} else b.dying;
    var rest := b.refs - {x};
    ShapeRefs(s, u);
    assert rest + {x} == b.refs;
    forall q <- u ensures Counted(u, rest, q) {
      AddCounted(u, rest, s, x, q);
    }
    forall q <- u ensures Orderly(u, dying, q) {
      assert Orderly(s, b.dying, q);
    }
  }

  /** An endpoint that loses a receiver; it is destroyed, its queues drained, when that was the last one. */
  function LoseReceiver(e: Obj): Obj {
    var n := e.receivers - 1;
    if n < 1 then e.(receivers := n, destroyed := true, sendList := [], recvList := [])
    else e.(receivers := n)
  }

  lemma LoseKeeps(s: Objs, b: Books, o: Oid, x: Ref)
    requires Invariant(s, b)
    requires x in b.extra && HasTarget(s, x) && Target(s, x) == o && Receives(s, x)
    requires o in s && s[o].kind.Endpoint?
    ensures CascadedOne(s[o], LoseReceiver(s[o]), false)
    ensures var y := Pending(b.next, o, false);
            Invariant(s[o := LoseReceiver(s[o])],
                      b.(refs := b.refs - {x} + {y}, extra := b.extra - {x} + {y}, next := b.next + 1))
  {
    var y := Pending(b.next, o, false);
    var u := s[o := LoseReceiver(s[o])];
    Untrack(s, b, x);
    assert x in Receiving(s, b.refs, o) && Counted(s, b.refs, o);
    EndpointShape(s, u, o);
    forall q <- u ensures Counted(u, b.refs - {x} + {y}, q) {
      SwapCounted(s, b.refs, u, x, y, q);
    }
    forall q <- u ensures Orderly(u, b.dying, q) {
      assert Orderly(s, b.dying, q);
    }
  }

  /** Changing an endpoint alone changes no reference. */
  lemma EndpointShape(s: Objs, u: Objs, o: Oid)
    requires o in s && o in u && u == s[o := u[o]]
    requires s[o].kind.Endpoint? && u[o].kind.Endpoint?
    requires s[o].table == u[o].table && s[o].process == u[o].process
    ensures forall r, e :: IsRef(s, e, r) <==> IsRef(u, e, r)
    ensures forall r :: HasTarget(s, r) ==> Agree(s, u, r)
    ensures forall q :: ThreadsOf(s, q) == ThreadsOf(u, q)
  {}

  /** The slots of a table that are open, from fd on. */
  ghost function OpenFrom(p: Oid, table: seq<Descriptor>, fd: nat): set<Ref> {
    set k | fd <= k < |table| && table[k].state.StateOpen? :: SlotRef(p, k)
  }

  lemma OpenFromStep(p: Oid, table: seq<Descriptor>, fd: nat)
    requires fd < |table|
    ensures OpenFrom(p, table, fd) ==
            OpenFrom(p, table, fd + 1) + if table[fd].state.StateOpen? then {SlotRef(p, fd)} else {}
    ensures SlotRef(p, fd) !in OpenFrom(p, table, fd + 1)
  {}

  /** The slots a process holds open. */
  ghost function OpenSlots(s: Objs, p: Oid): set<Ref>
    requires p in s
  {
    OpenFrom(p, s[p].table, 0)
  }

  /** Marking an object destroyed puts the slots it holds open in hand. */
  lemma MarkKeeps(s: Objs, b: Books, p: Oid)
    requires Invariant(s, b) && IsLive(s, p)
    ensures Invariant(s[p := s[p].(destroyed := true, sendList := [], recvList := [])],
                      b.(extra := b.extra + OpenSlots(s, p)))
  {
    var u := s[p := s[p].(destroyed := true, sendList := [], recvList := [])];
    var extra := b.extra + OpenSlots(s, p);
    assert forall r :: HasTarget(s, r) ==> Agree(s, u, r);
    assert Orderly(s, b.dying, p);
    forall r ensures IsRef(u, extra, r) <==> IsRef(s, b.extra, r) {
      if r.SlotRef? && r.holder == p {
        assert r in OpenSlots(s, p) <==> IsOpenSlot(s, p, r.fd);
      }
    }
    forall q <- u ensures Counted(u, b.refs, q) {
      assert ThreadsOf(s, q) == ThreadsOf(u, q);
      SameCounted(s, b.refs, u, q);
    }
    forall q <- u ensures Orderly(u, b.dying, q) {
      assert Orderly(s, b.dying, q);
    }
    forall r <- extra ensures InHand(u, b.next, r) {
      assert r in b.extra ==> InHand(s, b.next, r);
    }
  }

  /** An object that has no reference left is as its cache constructor left it. */
  lemma NothingLeft(s: Objs, b: Books, o: Oid)
    requires Invariant(s, b) && o in s && s[o].inUse && s[o].destroyed && s[o].refCount == 0
    ensures s[o].receivers == 0 && s[o].sendList == s[o].recvList == []
    ensures !s[o].started && (s[o].kind.Process? ==> s[o].running == 0)
    ensures forall r <- b.refs :: Target(s, r) != o
  {
    assert Counted(s, b.refs, o) && Orderly(s, b.dying, o);
    assert forall r <- b.refs :: Sound(s, r) && (Target(s, r) == o ==> r in Pointing(s, b.refs, o));
    assert Receiving(s, b.refs, o) == {};
    if t :| t in ThreadsOf(s, o) {
      assert IsRef(s, b.extra, ProcRef(t));
      assert false;
    }
    if s[o].started {
      assert IsRef(s, b.extra, SelfRef(o));
      assert false;
    }
  }

  /** Handing it back to the cache. */
  lemma FreeKeeps(s: Objs, b: Books, o: Oid)
    requires Invariant(s, b) && o in s && s[o].inUse && s[o].destroyed && s[o].refCount == 0
    ensures Invariant(s[o := s[o].(inUse := false)], b.(dying := b.dying - {o}))
  {
    NothingLeft(s, b, o);
    var u := s[o := s[o].(inUse := false)];
    assert forall r :: HasTarget(s, r) ==> Agree(s, u, r);
    forall q <- u ensures Counted(u, b.refs, q) {
      assert ThreadsOf(s, q) == ThreadsOf(u, q);
      SameCounted(s, b.refs, u, q);
    }
    forall q <- u ensures Orderly(u, b.dying - {o}, q) {
      assert Orderly(s, b.dying, q);
    }
  }

  ghost function WithSlot(s: Objs, p: Oid, fd: nat, d: Descriptor): Objs
    requires p in s && fd < |s[p].table|
  {
    s[p := s[p].(table := s[p].table[fd := d])]
  }

  /** Writing one slot leaves all other references alone. */
  lemma SlotShape(s: Objs, p: Oid, fd: nat, d: Descriptor)
    requires p in s && fd < |s[p].table|
    ensures var u := WithSlot(s, p, fd, d);
            && (forall r :: r != SlotRef(p, fd) && HasTarget(s, r) ==> Agree(s, u, r))
            && (forall r, e :: r != SlotRef(p, fd) ==> (IsRef(s, e, r) <==> IsRef(u, e, r)))
            && (forall q :: ThreadsOf(s, q) == ThreadsOf(u, q))
  {}

  /** Writing a slot that was not open and is not open then: no reference comes or goes. */
  lemma ClosedSlotKeeps(s: Objs, b: Books, p: Oid, fd: nat, d: Descriptor)
    requires Invariant(s, b) && IsLive(s, p) && fd < |s[p].table|
    requires !s[p].table[fd].state.StateOpen? && !d.state.StateOpen?
    ensures Invariant(WithSlot(s, p, fd, d), b)
  {
    var u := WithSlot(s, p, fd, d);
    SlotShape(s, p, fd, d);
    assert forall r <- b.extra :: InHand(s, b.next, r);
    assert SlotRef(p, fd) !in b.refs;
    forall q <- u ensures Counted(u, b.refs, q) {
      SameCounted(s, b.refs, u, q);
    }
    forall q <- u ensures Orderly(u, b.dying, q) {
      assert Orderly(s, b.dying, q);
    }
  }

  /** Closing an open slot puts its reference in hand. */
  lemma CloseSlotKeeps(s: Objs, b: Books, p: Oid, fd: nat, d: Descriptor)
    requires Invariant(s, b) && IsLive(s, p) && IsOpenSlot(s, p, fd) && !d.state.StateOpen?
    ensures var was := s[p].table[fd];
            var y := Pending(b.next, was.target, Receive in was.perms);
            Invariant(WithSlot(s, p, fd, d),
                      b.(refs := b.refs - {SlotRef(p, fd)} + {y}, extra := b.extra + {y}, next := b.next + 1))
  {
    var was := s[p].table[fd];
    var x, y := SlotRef(p, fd), Pending(b.next, was.target, Receive in was.perms);
    var u := WithSlot(s, p, fd, d);
    SlotShape(s, p, fd, d);
    assert x !in b.extra by {
      assert x in b.extra ==> InHand(s, b.next, x);
    }
    assert y !in b.extra by {
      assert y in b.extra ==> InHand(s, b.next, y);
    }
    assert IsRef(s, b.extra, x) && !IsRef(s, b.extra, y);
    var refs := b.refs - {x} + {y};
    assert Tracked(u, b.extra + {y}, refs);
    forall q <- u ensures Counted(u, refs, q) {
      SwapCounted(s, b.refs, u, x, y, q);
    }
    forall q <- u ensures Orderly(u, b.dying, q) {
      assert Orderly(s, b.dying, q);
    }
    forall r <- refs ensures Sound(u, r) {
      assert Sound(s, if r == y then x else r);
    }
    forall r <- b.extra + {y} ensures InHand(u, b.next + 1, r) {
      assert r != y ==> InHand(s, b.next, r);
    }
  }

  /** An object that gains a descriptor; one from the cache comes into use. */
  function Opened(o: Obj, d: Descriptor): Obj {
    o.(inUse := true, refCount := o.refCount + 1,
       receivers := if o.kind.Endpoint? && Receive in d.perms then o.receivers + 1 else o.receivers)
  }

  ghost function WithOpenSlot(s: Objs, p: Oid, fd: nat, d: Descriptor): Objs
    requires p in s && fd < |s[p].table| && d.target in s
  {
    var u := WithSlot(s, p, fd, d);
    u[d.target := Opened(u[d.target], d)]
  }

  /** Opening a slot adds a reference. */
  lemma OpenSlotKeeps(s: Objs, b: Books, p: Oid, fd: nat, d: Descriptor)
    requires Invariant(s, b) && IsLive(s, p) && s[p].kind.Process? && fd < |s[p].table|
    requires !s[p].table[fd].state.StateOpen? && d.state.StateOpen? && d.target in s
    requires Receive in d.perms ==> s[d.target].kind.Endpoint?
    requires CanOpen(s, d)
    ensures Invariant(WithOpenSlot(s, p, fd, d), b.(refs := b.refs + {SlotRef(p, fd)}))
  {
    var u, y := WithOpenSlot(s, p, fd, d), SlotRef(p, fd);
    OpenSlotShape(s, p, fd, d);
    assert y !in b.extra by {
      assert y in b.extra ==> InHand(s, b.next, y);
    }
    assert y !in b.refs by {
      assert !IsRef(s, b.extra, y);
    }
    assert Tracked(u, b.extra, b.refs + {y});
    forall q <- u ensures Counted(u, b.refs + {y}, q) {
      AddCounted(s, b.refs, u, y, q);
    }
    forall q <- u ensures Orderly(u, b.dying, q) {
      OpenSlotOrderly(s, b, p, fd, d, q);
    }
    forall r <- b.refs + {y} ensures Sound(u, r) {
      assert r != y ==> Sound(s, r);
    }
    forall r <- b.extra ensures InHand(u, b.next, r) {
      assert InHand(s, b.next, r);
    }
  }

  lemma OpenSlotOrderly(s: Objs, b: Books, p: Oid, fd: nat, d: Descriptor, q: Oid)
    requires Invariant(s, b) && p in s && fd < |s[p].table| && q in s
    requires d.target in s && CanOpen(s, d)
    ensures Orderly(WithOpenSlot(s, p, fd, d), b.dying, q)
  {
    assert Orderly(s, b.dying, q) && Counted(s, b.refs, q);
  }

  /** Opening a slot leaves all other references alone. */
  lemma OpenSlotShape(s: Objs, p: Oid, fd: nat, d: Descriptor)
    requires IsLive(s, p) && s[p].kind.Process? && fd < |s[p].table|
    requires d.state.StateOpen? && d.target in s && CanOpen(s, d)
    ensures var u := WithOpenSlot(s, p, fd, d);
            && (forall r :: r != SlotRef(p, fd) && HasTarget(s, r) ==> Agree(s, u, r))
            && (forall r, e :: r != SlotRef(p, fd) ==> (IsRef(s, e, r) <==> IsRef(u, e, r)))
            && (forall q :: ThreadsOf(s, q) == ThreadsOf(u, q))
            && (forall e :: IsRef(u, e, SlotRef(p, fd)))
  {
    SlotShape(s, p, fd, d);
    OpenedShape(WithSlot(s, p, fd, d), d.target, d);
  }

  /** The object is referenced already, or is one just taken from its cache with nothing open. */
  ghost predicate CanOpen(s: Objs, d: Descriptor)
    requires d.target in s
  {
    var o := s[d.target];
    if o.inUse then o.refCount > 0 && !o.destroyed
    else !o.destroyed && (o.kind.Endpoint? ==> Receive in d.perms) && forall c <- o.table :: !c.state.StateOpen?
  }

  lemma OpenedShape(s: Objs, o: Oid, d: Descriptor)
    requires o in s && (s[o].inUse || forall c <- s[o].table :: !c.state.StateOpen?)
    ensures var u := s[o := Opened(s[o], d)];
            && (forall r :: HasTarget(s, r) ==> Agree(s, u, r))
            && (forall r, e :: IsRef(s, e, r) <==> IsRef(u, e, r))
            && (forall q :: ThreadsOf(s, q) == ThreadsOf(u, q))
  {}

  /** A thread that starts references itself and its process. */
  ghost function WithStarted(s: Objs, t: Oid): Objs
    requires t in s && s[t].process in s
  {
    var v := s[t := s[t].(started := true, refCount := s[t].refCount + 1)];
    var p := s[t].process;
    v[p := v[p].(refCount := v[p].refCount + 1, running := v[p].running + 1)]
  }

  lemma StartShape(s: Objs, t: Oid)
    requires t in s && s[t].kind.Thread? && !s[t].started && s[t].process in s && s[s[t].process].kind.Process?
    ensures var u := WithStarted(s, t);
            && (forall r :: HasTarget(s, r) ==> Agree(s, u, r))
            && (forall r, e :: IsRef(u, e, r) <==> IsRef(s, e, r) || r == SelfRef(t) || r == ProcRef(t))
            && (forall q :: q != s[t].process ==> ThreadsOf(u, q) == ThreadsOf(s, q))
            && ThreadsOf(u, s[t].process) == ThreadsOf(s, s[t].process) + {t} && t !in ThreadsOf(s, s[t].process)
  {}

  /** Starting a thread is right if and only if its process is live, which the kernel does not look at. */
  lemma StartKeepsIff(s: Objs, b: Books, t: Oid)
    requires Invariant(s, b) && Housed(s) && b.dying == {}
    requires t in s && s[t].kind.Thread? && s[t].inUse && s[t].refCount > 0 && !s[t].started
    ensures s[t].process in s
    ensures Invariant(WithStarted(s, t), b.(refs := b.refs + {SelfRef(t), ProcRef(t)})) && Housed(WithStarted(s, t))
            <==> IsLive(s, s[t].process)
  {
    assert HousedAt(s, t);
    var p := s[t].process;
    assert Orderly(s, b.dying, p);
    if IsLive(s, p) {
      StartKeeps(s, b, t);
      StartHoused(s, t);
    } else {
      assert !HousedAt(WithStarted(s, t), t);
    }
  }

  lemma StartHoused(s: Objs, t: Oid)
    requires Housed(s) && t in s && s[t].kind.Thread?
    requires s[t].process in s && IsLive(s, s[t].process)
    ensures Housed(WithStarted(s, t))
  {
    var u := WithStarted(s, t);
    forall x | x in u ensures HousedAt(u, x) {
      assert HousedAt(s, x) && HousedAt(s, t);
    }
  }

  /** Threads are as they were and no process stopped being live. */
  lemma SameHoused(s: Objs, u: Objs)
    requires Housed(s) && s.Keys == u.Keys
    requires forall o <- s :: u[o].kind == s[o].kind && u[o].started == s[o].started && u[o].process == s[o].process
    requires forall o <- s :: s[o].kind.Process? && IsLive(s, o) ==> IsLive(u, o)
    ensures Housed(u)
  {
    forall t | t in u ensures HousedAt(u, t) {
      assert HousedAt(s, t);
    }
  }

  /** A process with a running thread is not destroyed unless that is asked for. */
  lemma CascadeHoused(s: Objs, u: Objs, c: Books, asked: set<Oid>)
    requires Housed(s) && Cascaded(s, u, asked) && Invariant(u, c)
    requires forall t <- s :: IsRunning(s, t) ==> s[t].process !in asked
    ensures Housed(u)
  {
    forall t | t in u ensures HousedAt(u, t) {
      assert HousedAt(s, t) && CascadedOne(s[t], u[t], t in asked);
      if s[t].kind.Thread? {
        var p := s[t].process;
        assert CascadedOne(s[p], u[p], p in asked);
        if s[t].started {
          assert IsRunning(s, t) && IsRef(u, c.extra, ProcRef(t));
          ReferencedInUse(u, c, ProcRef(t));
        }
      }
    }
  }

  lemma ExitHoused(s: Objs, t: Oid)
    requires Housed(s) && IsRunning(s, t) && s[t].process in s
    ensures Housed(WithExited(s, t))
  {
    var u := WithExited(s, t);
    forall x | x in u ensures HousedAt(u, x) {
      assert HousedAt(s, x);
    }
  }

  lemma StartKeeps(s: Objs, b: Books, t: Oid)
    requires Invariant(s, b) && t in s && s[t].kind.Thread? && s[t].inUse && s[t].refCount > 0 && !s[t].started
    requires s[t].process in s && s[s[t].process].kind.Process?
    requires s[s[t].process].inUse && s[t].process !in b.dying
    ensures Invariant(WithStarted(s, t), b.(refs := b.refs + {SelfRef(t), ProcRef(t)}))
  {
    var u := WithStarted(s, t);
    var refs := b.refs + {SelfRef(t), ProcRef(t)};
    StartTracked(s, b, t);
    forall q <- u ensures Counted(u, refs, q) {
      StartCounted(s, b.refs, t, q);
    }
    forall q <- u ensures Orderly(u, b.dying, q) {
      assert Orderly(s, b.dying, q) && Counted(s, b.refs, q);
    }
    forall r <- refs ensures Sound(u, r) {
      assert r in b.refs ==> Sound(s, r);
    }
    forall r <- b.extra ensures InHand(u, b.next, r) {
      assert InHand(s, b.next, r);
    }
  }

  lemma StartTracked(s: Objs, b: Books, t: Oid)
    requires Invariant(s, b) && t in s && s[t].kind.Thread? && !s[t].started
    requires s[t].process in s && s[s[t].process].kind.Process?
    ensures SelfRef(t) !in b.refs && ProcRef(t) !in b.refs
    ensures Tracked(WithStarted(s, t), b.extra, b.refs + {SelfRef(t), ProcRef(t)})
  {
    assert SelfRef(t) in b.extra ==> InHand(s, b.next, SelfRef(t));
    assert ProcRef(t) in b.extra ==> InHand(s, b.next, ProcRef(t));
    assert !IsRef(s, b.extra, SelfRef(t)) && !IsRef(s, b.extra, ProcRef(t));
    StartShape(s, t);
  }

  /** Two more references. */
  lemma CountTwo(s: Objs, a: set<Ref>, u: Objs, x: Ref, y: Ref, q: Oid)
    requires x !in a && y !in a && x != y && HasTarget(u, x) && HasTarget(u, y)
    requires forall r <- a :: Agree(s, u, r)
    requires !Receives(u, x) && !Receives(u, y)
    ensures |Pointing(u, a + {x, y}, q)| == |Pointing(s, a, q)| + One(Target(u, x) == q) + One(Target(u, y) == q)
    ensures |Receiving(u, a + {x, y}, q)| == |Receiving(s, a, q)|
  {
    CountAdded(s, a, u, x, q);
    assert forall r <- a + {x} :: Agree(u, u, r);
    CountAdded(u, a + {x}, u, y, q);
    assert a + {x} + {y} == a + {x, y};
  }

  lemma StartCounted(s: Objs, a: set<Ref>, t: Oid, q: Oid)
    requires t in s && s[t].kind.Thread? && !s[t].started && s[t].process in s && s[s[t].process].kind.Process?
    requires forall r <- a :: HasTarget(s, r)
    requires SelfRef(t) !in a && ProcRef(t) !in a && q in s
    ensures Counted(s, a, q) <==> Counted(WithStarted(s, t), a + {SelfRef(t), ProcRef(t)}, q)
  {
    StartShape(s, t);
    CountTwo(s, a, WithStarted(s, t), SelfRef(t), ProcRef(t), q);
  }

  /** A thread that exits: its two references are now in hand, and its process has one running thread less. */
  ghost function WithExited(s: Objs, t: Oid): Objs
    requires t in s && s[t].process in s
  {
    var v := s[t := s[t].(started := false)];
    v[s[t].process := v[s[t].process].(running := v[s[t].process].running - 1)]
  }

  ghost function ExitBooks(s: Objs, b: Books, t: Oid): Books
    requires t in s
  {
    var mine := {Pending(b.next, t, false), Pending(b.next + 1, s[t].process, false)};
    b.(refs := b.refs - {SelfRef(t), ProcRef(t)} + mine, extra := b.extra + mine, next := b.next + 2)
  }

  lemma ExitShape(s: Objs, t: Oid)
    requires t in s && s[t].kind.Thread? && s[t].started && s[t].process in s && s[s[t].process].kind.Process?
    ensures var u := WithExited(s, t);
            && (forall r :: HasTarget(s, r) ==> Agree(s, u, r))
            && (forall q :: q != s[t].process ==> ThreadsOf(u, q) == ThreadsOf(s, q))
            && ThreadsOf(s, s[t].process) == ThreadsOf(u, s[t].process) + {t} && t !in ThreadsOf(u, s[t].process)
  {}

  lemma ExitCounted(s: Objs, b: Books, t: Oid, q: Oid)
    requires Invariant(s, b) && IsRunning(s, t) && q in s
    requires s[t].process in s && s[s[t].process].kind.Process?
    ensures Counted(WithExited(s, t), ExitBooks(s, b, t).refs, q)
  {
    ExitFresh(s, b, t);
    assert Counted(s, b.refs, q);
    var rest := b.refs - {SelfRef(t), ProcRef(t)};
    Rejoin(b.refs, SelfRef(t), ProcRef(t));
    assert forall r <- b.refs :: Sound(s, r);
    ExitCountedFrom(s, rest, t, Pending(b.next, t, false), Pending(b.next + 1, s[t].process, false), q);
  }

  lemma Rejoin(a: set<Ref>, x: Ref, y: Ref)
    requires x in a && y in a
    ensures a - {x, y} + {x, y} == a
  {}

  lemma ExitCountedFrom(s: Objs, rest: set<Ref>, t: Oid, mx: Ref, my: Ref, q: Oid)
    requires IsRunning(s, t) && q in s && s[t].process in s && s[s[t].process].kind.Process?
    requires forall r <- rest :: HasTarget(s, r)
    requires SelfRef(t) !in rest && ProcRef(t) !in rest && mx !in rest && my !in rest
    requires mx.Pending? && my.Pending? && mx != my && mx.target == t && my.target == s[t].process
    requires !mx.receives && !my.receives
    requires Counted(s, rest + {SelfRef(t), ProcRef(t)}, q)
    ensures Counted(WithExited(s, t), rest + {mx, my}, q)
  {
    ExitShape(s, t);
    assert forall r <- rest :: Agree(s, s, r);
    CountTwo(s, rest, s, SelfRef(t), ProcRef(t), q);
    CountTwo(s, rest, WithExited(s, t), mx, my, q);
  }

  lemma ExitFresh(s: Objs, b: Books, t: Oid)
    requires Invariant(s, b) && IsRunning(s, t)
    ensures SelfRef(t) in b.refs && ProcRef(t) in b.refs
    ensures SelfRef(t) !in b.extra && ProcRef(t) !in b.extra
    ensures Pending(b.next, t, false) !in b.refs && Pending(b.next + 1, s[t].process, false) !in b.refs
  {
    var mx, my := Pending(b.next, t, false), Pending(b.next + 1, s[t].process, false);
    assert IsRef(s, b.extra, SelfRef(t)) && IsRef(s, b.extra, ProcRef(t));
    assert SelfRef(t) in b.extra ==> InHand(s, b.next, SelfRef(t));
    assert ProcRef(t) in b.extra ==> InHand(s, b.next, ProcRef(t));
    assert mx in b.extra ==> InHand(s, b.next, mx);
    assert my in b.extra ==> InHand(s, b.next, my);
    assert !IsRef(s, b.extra, mx) && !IsRef(s, b.extra, my);
  }

  lemma ExitTracked(s: Objs, b: Books, t: Oid)
    requires Invariant(s, b) && IsRunning(s, t)
    requires s[t].process in s && s[s[t].process].kind.Process?
    ensures Tracked(WithExited(s, t), ExitBooks(s, b, t).extra, ExitBooks(s, b, t).refs)
  {
    ExitFresh(s, b, t);
    var u, c := WithExited(s, t), ExitBooks(s, b, t);
    forall r ensures r in c.refs <==> IsRef(u, c.extra, r) {
      assert r in b.refs <==> IsRef(s, b.extra, r);
    }
  }

  lemma ExitKeeps(s: Objs, b: Books, t: Oid)
    requires Invariant(s, b) && IsRunning(s, t)
    requires s[t].process in s && s[s[t].process].kind.Process?
    ensures Invariant(WithExited(s, t), ExitBooks(s, b, t))
  {
    var u, c := WithExited(s, t), ExitBooks(s, b, t);
    ExitTracked(s, b, t);
    forall q <- u ensures Counted(u, c.refs, q) {
      ExitCounted(s, b, t, q);
    }
    forall q <- u ensures Orderly(u, c.dying, q) {
      assert Orderly(s, b.dying, q);
    }
    forall r <- c.refs ensures Sound(u, r) {
      assert r in b.refs ==> Sound(s, r);
    }
    forall r <- c.extra ensures InHand(u, c.next, r) {
      assert r in b.extra ==> InHand(s, b.next, r);
    }
  }

  /** An object made ready in its cache: the header flags and, for a process, the table are reset; nothing else. */
  lemma RenewKeeps(s: Objs, b: Books, o: Oid, n: Obj)
    requires Invariant(s, b) && !n.inUse && !n.started && n.refCount == 0 && n.receivers == 0
    requires n.sendList == n.recvList == [] && |n.table| == (if n.kind.Process? then DESC_NUM else 0)
    requires n.kind.Process? ==> n.running == 0
    requires if o in s then !s[o].inUse && n.kind == s[o].kind else Unknown(s, b, o)
    requires forall r <- b.extra :: r.Pending?
    ensures Invariant(s[o := n], b)
  {
    var u := s[o := n];
    if o in s {
      NoneTo(s, b, o);
    }
    assert forall r, e :: IsRef(s, e, r) <==> IsRef(u, e, r);
    assert forall q :: ThreadsOf(s, q) == ThreadsOf(u, q);
    forall r <- b.refs ensures Agree(s, u, r) && Sound(u, r) {
      assert Sound(s, r);
    }
    forall q <- u ensures Counted(u, b.refs, q) {
      if q == o {
        assert Pointing(u, b.refs, o) == {} && Receiving(u, b.refs, o) == {};
      } else {
        SameCounted(s, b.refs, u, q);
      }
    }
    forall q <- u ensures Orderly(u, b.dying, q) {
      assert q != o ==> Orderly(s, b.dying, q);
      assert q == o && o in s ==> Orderly(s, b.dying, o);
    }
  }

  lemma RenewHoused(s: Objs, o: Oid, n: Obj)
    requires Housed(s) && (o in s ==> !s[o].inUse && n.kind == s[o].kind) && !n.started
    requires n.kind.Thread? ==> n.process in s && s[n.process].kind.Process? && n.process != o
    ensures Housed(s[o := n])
  {
    var u := s[o := n];
    forall t | t in u ensures HousedAt(u, t) {
      assert t != o ==> HousedAt(s, t);
    }
  }

  /** Nothing refers to an address that is not an object yet. */
  ghost predicate Unknown(s: Objs, b: Books, o: Oid) {
    && o !in s && o !in b.dying && (forall t <- s :: s[t].started ==> s[t].process != o)
  }

  /** Nothing refers to an object that has been handed back. */
  lemma NoneTo(s: Objs, b: Books, o: Oid)
    requires Invariant(s, b) && o in s && !s[o].inUse
    ensures forall r <- b.refs :: Target(s, r) != o
    ensures ThreadsOf(s, o) == {} && !s[o].started
  {
    assert Counted(s, b.refs, o) && Orderly(s, b.dying, o);
    assert forall r <- b.refs :: Target(s, r) == o ==> r in Pointing(s, b.refs, o);
    if t :| t in ThreadsOf(s, o) {
      assert IsRef(s, b.extra, ProcRef(t));
      assert false;
    }
    if s[o].started {
      assert IsRef(s, b.extra, SelfRef(o));
      assert false;
    }
  }

  // ---- The cascade

  /**
   * From s to u objects were only closed, destroyed and freed. Tables and threads
   * are as they were, and whatever is newly destroyed has no reference left, or
   * is an endpoint with no receiver left, or is in `asked`.
   */
  ghost predicate Cascaded(s: Objs, u: Objs, asked: set<Oid>) {
    && s.Keys == u.Keys
    && forall o <- s :: CascadedOne(s[o], u[o], o in asked)
  }

  ghost predicate CascadedOne(a: Obj, b: Obj, asked: bool) {
    && b == a.(inUse := b.inUse, refCount := b.refCount, destroyed := b.destroyed,
               receivers := b.receivers, sendList := b.sendList, recvList := b.recvList)
    && (b.inUse ==> a.inUse) && (a.destroyed ==> b.destroyed) && b.refCount <= a.refCount
    && b.receivers <= a.receivers && (a.receivers == 0 ==> b.receivers == 0)
    && (b.destroyed && !a.destroyed ==> asked || !b.inUse || (b.kind.Endpoint? && b.receivers == 0))
    && (a.inUse && !b.inUse ==> b.destroyed)
    && (!b.destroyed ==> b.sendList == a.sendList && b.recvList == a.recvList)
  }

  /** The flag that bounds the recursion is only ever set. */
  ghost function NotDestroyed(s: Objs): set<Oid> {
    set o <- s | !s[o].destroyed
  }

  lemma CascadeShrinks(s: Objs, u: Objs, asked: set<Oid>)
    requires Cascaded(s, u, asked)
    ensures NotDestroyed(u) <= NotDestroyed(s)
  {
    forall o <- NotDestroyed(u) ensures o in NotDestroyed(s) {
      assert CascadedOne(s[o], u[o], o in asked);
    }
  }

  lemma CascadeThen(s: Objs, u: Objs, v: Objs, asked: set<Oid>)
    requires Cascaded(s, u, asked) && Cascaded(u, v, asked)
    ensures Cascaded(s, v, asked)
  {
    forall o <- s ensures CascadedOne(s[o], v[o], o in asked) {
      assert CascadedOne(s[o], u[o], o in asked) && CascadedOne(u[o], v[o], o in asked);
    }
  }

  /** Destroying one object and then whatever follows from it. */
  lemma CascadeFrom(s: Objs, u: Objs, v: Objs, o: Oid)
    requires o in s && u == s[o := s[o].(destroyed := true, sendList := [], recvList := [])]
    requires Cascaded(u, v, {})
    ensures Cascaded(s, v, {o})
  {
    forall q <- s ensures CascadedOne(s[q], v[q], q == o) {
      assert CascadedOne(u[q], v[q], false);
    }
  }

  /** Destroying an object that is then freed was not arbitrary. */
  lemma CascadeFreed(s: Objs, u: Objs, v: Objs, o: Oid)
    requires Cascaded(s, u, {}) && Cascaded(u, v, {o}) && o in v && v[o].destroyed
    ensures Cascaded(s, v[o := v[o].(inUse := false)], {})
  {
    var w := v[o := v[o].(inUse := false)];
    forall q <- s ensures CascadedOne(s[q], w[q], false) {
      assert CascadedOne(s[q], u[q], false) && CascadedOne(u[q], v[q], q == o);
    }
  }

  class ObjectTable {
    var objs: Objs
    ghost var books: Books

    constructor (objs: Objs, ghost books: Books)
      requires Invariant(objs, books)
      ensures Inv() && this.objs == objs && this.books == books
    {
      this.objs, this.books := objs, books;
    }

    ghost predicate Inv()
      reads this
    {
      Invariant(objs, books)
    }

    ghost function Undestroyed(): set<Oid>
      reads this
    {
      NotDestroyed(objs)
    }

    /** Take a reference on an object that has one already. */
    method AddRef(o: Oid) returns (ghost y: Ref)
      requires Inv() && o in objs && objs[o].inUse && objs[o].refCount > 0
      modifies this
      ensures Inv() && objs == old(objs)[o := old(objs[o]).(refCount := old(objs[o].refCount) + 1)]
      ensures y == Pending(old(books.next), o, false) && y !in old(books.extra)
      ensures books == old(books).(refs := old(books.refs) + {y}, extra := old(books.extra) + {y}, next := old(books.next) + 1)
    {
      y := Pending(books.next, o, false);
      assert y in books.extra ==> InHand(objs, books.next, y);
      TakeKeeps(objs, books, o);
      var taken := objs[o := objs[o].(refCount := objs[o].refCount + 1)];
      ghost var more := books.(refs := books.refs + {y}, extra := books.extra + {y}, next := books.next + 1);
      assert Invariant(taken, more);
      books := more;
      objs := taken;
    }

    /** The decrement; the count is positive before it. */
    method Decrement(o: Oid, ghost x: Ref) returns (refCount: int)
      requires Inv() && x in books.extra && HasTarget(objs, x) && Target(objs, x) == o && !Receives(objs, x)
      modifies this
      ensures Inv() && o in old(objs) && old(objs[o].inUse)
      ensures refCount == old(objs[o].refCount) - 1 >= 0
      ensures objs == old(objs)[o := old(objs[o]).(refCount := refCount)]
      ensures books.extra == old(books.extra) - {x} && books.next == old(books.next)
      ensures books.dying == if refCount == 0 then old(books.dying) + {o} else old(books.dying)
      ensures o !in old(books.dying) && books.refs == old(books.refs) - {x}
      ensures books == old(books).(refs := books.refs, extra := books.extra, dying := books.dying)
    {
      DropKeeps(objs, books, o, x);
      assert Orderly(objs, books.dying, o);
      refCount := objs[o].refCount - 1;
      books := books.(refs := books.refs - {x}, extra := books.extra - {x},
                      dying := if refCount == 0 then books.dying + {o} else books.dying);
      objs := objs[o := objs[o].(refCount := refCount)];
    }

    /** Hand an object back to its cache, in the state the cache constructor set. */
    method Free(o: Oid)
      requires Inv() && o in objs && objs[o].inUse && objs[o].destroyed && objs[o].refCount == 0
      modifies this
      ensures Inv() && objs == old(objs)[o := old(objs[o]).(inUse := false)]
      ensures objs[o].receivers == 0 && objs[o].sendList == objs[o].recvList == []
      ensures books == old(books).(dying := old(books.dying) - {o})
    {
      NothingLeft(objs, books, o);
      FreeKeeps(objs, books, o);
      books := books.(dying := books.dying - {o});
      objs := objs[o := objs[o].(inUse := false)];
    }

    /** Drop a reference. The count never goes negative; at zero the object is destroyed and freed. */
    method SubRef(o: Oid, ghost x: Ref)
      requires Inv() && x in books.extra && HasTarget(objs, x) && Target(objs, x) == o && !Receives(objs, x)
      modifies this
      ensures Inv() && books.extra == old(books.extra) - {x} && books.dying == old(books.dying)
      ensures Cascaded(old(objs), objs, {}) && books.next >= old(books.next)
      ensures o in old(objs) && (old(objs[o].refCount) > 1 ==>
                && objs == old(objs)[o := old(objs[o]).(refCount := old(objs[o].refCount) - 1)]
                && books == old(books).(refs := old(books.refs) - {x}, extra := old(books.extra) - {x}))
      decreases Undestroyed(), 1
    {
      var refCount := Decrement(o, x);
      assert Undestroyed() == old(Undestroyed());
      if refCount > 0 {
        return;
      }
      assert refCount == 0;
      ghost var s := objs;
      Destroy(o);
      assert CascadedOne(s[o], objs[o], true);
      assert Counted(objs, books.refs, o);
      CascadeFreed(old(objs), s, objs, o);
      Free(o);
    }

    /** Mark an object destroyed and run its destroy op, once. */
    method Destroy(o: Oid)
      requires Inv() && o in objs && objs[o].inUse
      requires o in books.dying || exists k :: k in books.extra && k.Pending? && k.target == o
      modifies this
      ensures Inv() && books.extra == old(books.extra) && books.dying == old(books.dying)
      ensures Cascaded(old(objs), objs, {o}) && books.next >= old(books.next)
      ensures objs[o].destroyed && objs[o].inUse
      decreases Undestroyed(), 0
    {
      if objs[o].destroyed {
        return;
      }
      Mark(o);
      if objs[o].kind.Process? {
        CloseDescriptors(o, old(books.extra));
      }
      CascadeFrom(old(objs), old(objs)[o := old(objs[o]).(destroyed := true, sendList := [], recvList := [])], objs, o);
      StillInUse(objs, books, o);
    }

    /** Set the destroyed flag; an endpoint's queues are drained, a process's open slots are to be closed. */
    method Mark(o: Oid)
      requires Inv() && IsLive(objs, o)
      modifies this
      ensures Inv() && objs == old(objs)[o := old(objs[o]).(destroyed := true, sendList := [], recvList := [])]
      ensures books == old(books).(extra := old(books.extra) + OpenSlots(objs, o))
      ensures !objs[o].kind.Process? ==> OpenSlots(objs, o) == {}
      ensures OpenSlots(objs, o) !! old(books.extra)
      ensures Undestroyed() < old(Undestroyed())
    {
      assert Orderly(objs, books.dying, o);
      assert forall r <- books.extra :: InHand(objs, books.next, r);
      MarkKeeps(objs, books, o);
      books := books.(extra := books.extra + OpenSlots(objs, o));
      objs := objs[o := objs[o].(destroyed := true, sendList := [], recvList := [])];
      assert o in old(Undestroyed()) && Undestroyed() == old(Undestroyed()) - {o};
    }

    method CloseDescriptors(p: Oid, ghost others: set<Ref>)
      requires Inv() && p in objs && objs[p].destroyed
      requires books.extra == others + OpenSlots(objs, p) && others !! OpenSlots(objs, p)
      modifies this
      ensures Inv() && books.dying == old(books.dying) && books.extra == others
      ensures Cascaded(old(objs), objs, {}) && books.next >= old(books.next)
      decreases Undestroyed(), 3
    {
      ghost var table := objs[p].table;
      for fd := 0 to |objs[p].table|
        invariant Inv() && books.dying == old(books.dying) && books.next >= old(books.next)
        invariant Cascaded(old(objs), objs, {}) && p in objs && objs[p].table == table
        invariant books.extra == others + OpenFrom(p, table, fd) && others !! OpenFrom(p, table, fd)
      {
        var desc := objs[p].table[fd];
        ghost var u := objs;
        OpenFromStep(p, table, fd);
        CascadeShrinks(old(objs), objs, {});
        if desc.state.StateOpen? {
          Close(desc, SlotRef(p, fd));
          CascadeThen(old(objs), u, objs, {});
          assert CascadedOne(old(objs)[p], objs[p], false);
        }
      }
    }

    /** A descriptor no longer references its object; the reference is in hand. */
    method Close(desc: Descriptor, ghost x: Ref)
      requires Inv() && x in books.extra && HasTarget(objs, x) && Target(objs, x) == desc.target
      requires Receives(objs, x) <==> Receive in desc.perms
      modifies this
      ensures Inv() && books.extra == old(books.extra) - {x} && books.dying == old(books.dying)
      ensures Cascaded(old(objs), objs, {}) && books.next >= old(books.next)
      decreases Undestroyed(), 2
    {
      var o := desc.target;
      Untrack(objs, books, x);
      assert Sound(objs, x);
      if objs[o].kind.Endpoint? && Receive in desc.perms {
        LoseKeeps(objs, books, o, x);
        ghost var y := Pending(books.next, o, false);
        books := books.(refs := books.refs - {x} + {y}, extra := books.extra - {x} + {y}, next := books.next + 1);
        objs := objs[o := LoseReceiver(objs[o])];
        ghost var u := objs;
        CascadeShrinks(old(objs), u, {});
        SubRef(o, y);
        CascadeThen(old(objs), u, objs, {});
      } else {
        SubRef(o, x);
      }
    }
  }

  /** What is dying, or has a reference in hand, has not been freed. */
  lemma StillInUse(s: Objs, b: Books, o: Oid)
    requires Invariant(s, b) && o in s
    requires o in b.dying || exists k :: k in b.extra && k.Pending? && k.target == o
    ensures s[o].inUse
  {
    assert Orderly(s, b.dying, o);
    if o !in b.dying {
      var k :| k in b.extra && k.Pending? && k.target == o;
      assert IsRef(s, b.extra, k);
      ReferencedInUse(s, b, k);
    }
  }
}
