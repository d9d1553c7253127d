/**
 * Message passing, the ready queue and the life of threads, on one CPU: each
 * method is what the kernel does from one switch point to the next. A thread
 * that blocks inside a call resumes later with the matching Resume method.
 */
module Ipc {
  import opened Options

  type Tid = int
  type Eid = int

  datatype RunState = Created | Ready | Running | Blocked | Zombie

  /** Where a thread is in the kernel when it next runs. */
  datatype Place = UserCode | InSend | InReceive(ep: Eid, room: nat) | InAwait

  datatype Errno = NoError | EIO | E2BIG | EPROTO

  datatype Thr = Thr(
    state: RunState,
    place: Place,
    sender: Option<Tid>,     // the thread whose message is being handled
    awaiter: Option<Tid>,    // the thread waiting for this one to terminate
    errno: Errno,            // message_errno
    credits: int,
    size: nat,               // message_size
    room: nat                // recv_buffer_size
  )

  datatype Ep = Ep(sendList: seq<Tid>, recvList: seq<Tid>, destroyed: bool)

  /** Who will wake a blocked thread. */
  datatype Waker =
    | SendQueue(e: Eid)
    | RecvQueue(e: Eid)
    | Holder(r: Tid)     // the thread that has received its message
    | Exit(u: Tid)       // the thread it awaits
    | Nobody

  const BASE_CREDITS := 3

  /**
   * The kernel's state, with the waker of every blocked thread. It is `strict` as
   * long as threads answer a message before they receive again and receive
   * buffers stay valid.
   */
  datatype Sys = Sys(threads: map<Tid, Thr>, ready: seq<Tid>, eps: map<Eid, Ep>, waker: map<Tid, Waker>, strict: bool)

  predicate NoDup(q: seq<Tid>) {
    forall i, j :: 0 <= i < j < |q| ==> q[i] != q[j]
  }

  predicate Unfinished(th: Thr) {
    !th.state.Created? && !th.state.Zombie?
  }

  /** The waker recorded for t has t where it will look for it. */
  ghost predicate WakerHolds(s: Sys, t: Tid)
    requires t in s.threads && t in s.waker
  {
    match s.waker[t]
    case SendQueue(e) => e in s.eps && t in s.eps[e].sendList && s.threads[t].place.InSend?
    case RecvQueue(e) => e in s.eps && t in s.eps[e].recvList && s.threads[t].place.InReceive? && s.threads[t].place.ep == e
    case Holder(r) => r in s.threads && s.threads[r].sender == Some(t) && s.threads[t].place.InSend?
    case Exit(u) => u in s.threads && s.threads[u].awaiter == Some(t) && Unfinished(s.threads[u]) && s.threads[t].place.InAwait?
    case Nobody => !s.strict && s.threads[t].place.InSend?
  }

  ghost predicate Awaits(s: Sys, t: Tid, w: Waker) {
    t in s.waker && s.waker[t] == w
  }

  ghost predicate ThreadOk(s: Sys, cur: Option<Tid>, t: Tid)
    requires t in s.threads
  {
    var th := s.threads[t];
    && (th.state.Running? <==> cur == Some(t))
    && (th.state.Ready? <==> t in s.ready)
    && (th.state.Blocked? <==> t in s.waker)
    && (th.state.Blocked? ==> WakerHolds(s, t))
    && (th.sender.Some? ==> Awaits(s, th.sender.value, Holder(t)))
    && (th.awaiter.Some? && Unfinished(th) ==> Awaits(s, th.awaiter.value, Exit(t)))
    && (!Unfinished(th) ==> th.sender.None? && th.place.UserCode?)
    && (th.place.InReceive? && th.state.Ready? ==> th.errno != NoError)
    && (th.place.InReceive? && th.state.Running? && th.errno == NoError ==>
          th.sender.Some? && th.place.ep in s.eps && !s.eps[th.place.ep].destroyed)
    && (th.place.InReceive? && th.state.Blocked? ==> th.errno == NoError)
    && (s.strict && th.place.InReceive? && !(th.state.Running? && th.errno == NoError) ==> th.sender.None?)
  }

  ghost predicate EndpointOk(s: Sys, e: Eid)
    requires e in s.eps
  {
    && NoDup(s.eps[e].sendList) && NoDup(s.eps[e].recvList)
    && (forall t <- s.eps[e].sendList :: Awaits(s, t, SendQueue(e)))
    && (forall t <- s.eps[e].recvList :: Awaits(s, t, RecvQueue(e)))
    && (s.eps[e].sendList == [] || s.eps[e].recvList == [])
  }

  ghost predicate QueueOk(s: Sys) {
    NoDup(s.ready) && (forall t <- s.ready :: t in s.threads) && s.waker.Keys <= s.threads.Keys
  }

  ghost predicate Inv(s: Sys, cur: Option<Tid>) {
    && QueueOk(s) && (cur.Some? ==> cur.value in s.threads)
    && (forall t {:trigger ThreadOk(s, cur, t)} :: t in s.threads ==> ThreadOk(s, cur, t))
    && (forall e {:trigger EndpointOk(s, e)} :: e in s.eps ==> EndpointOk(s, e))
  }

  // ---- Threads that are never woken

  /** A thread that has asked for another message and has not been given one. */
  predicate Deaf(th: Thr) {
    th.place.InReceive? && !(th.state.Running? && th.errno == NoError)
  }

  /** A blocked thread that is on no queue, in no `sender` field and in no `awaiter` field that will be looked at. */
  ghost predicate Lost(s: Sys, t: Tid) {
    && t in s.threads && s.threads[t].state.Blocked? && t !in s.ready
    && (forall e <- s.eps :: t !in s.eps[e].sendList && t !in s.eps[e].recvList)
    && (forall r <- s.threads :: s.threads[r].sender != Some(t))
    && (forall u <- s.threads :: Unfinished(s.threads[u]) ==> s.threads[u].awaiter != Some(t))
  }

  /** The same, except that a thread that will forget it before it can answer still holds it. */
  ghost predicate Stuck(s: Sys, t: Tid) {
    && t in s.threads && s.threads[t].state.Blocked? && t !in s.ready
    && (forall e <- s.eps :: t !in s.eps[e].sendList && t !in s.eps[e].recvList)
    && (forall r <- s.threads :: s.threads[r].sender == Some(t) ==> Deaf(s.threads[r]))
    && (forall u <- s.threads :: Unfinished(s.threads[u]) ==> s.threads[u].awaiter != Some(t))
  }

  /** What the recorded wakers say of it. */
  ghost predicate StuckBy(s: Sys, t: Tid) {
    t in s.waker && match s.waker[t]
      case Nobody => true
      case Holder(r) => r in s.threads && Deaf(s.threads[r])
      case _ => false
  }

  lemma NotElsewhere(s: Sys, cur: Option<Tid>, t: Tid)
    requires Inv(s, cur) && t in s.waker
    ensures forall e <- s.eps :: (t in s.eps[e].sendList ==> s.waker[t] == SendQueue(e))
                              && (t in s.eps[e].recvList ==> s.waker[t] == RecvQueue(e))
    ensures forall r <- s.threads :: s.threads[r].sender == Some(t) ==> s.waker[t] == Holder(r)
    ensures forall u <- s.threads :: Unfinished(s.threads[u]) && s.threads[u].awaiter == Some(t) ==> s.waker[t] == Exit(u)
  {
    forall e <- s.eps
      ensures (t in s.eps[e].sendList ==> s.waker[t] == SendQueue(e)) && (t in s.eps[e].recvList ==> s.waker[t] == RecvQueue(e))
    {
      assert EndpointOk(s, e);
      assert t in s.eps[e].sendList ==> Awaits(s, t, SendQueue(e));
      assert t in s.eps[e].recvList ==> Awaits(s, t, RecvQueue(e));
    }
    forall r <- s.threads ensures ThreadOk(s, cur, r) {}
  }

  /** The wakers tell the truth. */
  lemma LostIff(s: Sys, cur: Option<Tid>, t: Tid)
    requires Inv(s, cur)
    ensures Lost(s, t) <==> Awaits(s, t, Nobody)
    ensures Stuck(s, t) <==> StuckBy(s, t)
  {
    if t in s.threads {
      assert ThreadOk(s, cur, t);
      if t in s.waker {
        NotElsewhere(s, cur, t);
      }
    }
  }

  /** Whom a thread holds. */
  function Held(th: Thr): set<Tid> {
    match th.sender
    case None => {}
    case Some(x) => {x}
  }

  /** From s to u, exactly the threads in `extra` became stuck, and nobody who was lost was found. */
  ghost predicate StuckPlus(s: Sys, u: Sys, extra: set<Tid>) {
    && (forall t {:trigger StuckBy(u, t)} :: StuckBy(u, t) <==> StuckBy(s, t) || t in extra)
    && (forall t {:trigger Awaits(u, t, Nobody)} :: Awaits(s, t, Nobody) ==> Awaits(u, t, Nobody))
  }

  lemma StuckThen(s: Sys, u: Sys, v: Sys, a: set<Tid>, b: set<Tid>)
    requires StuckPlus(s, u, a) && StuckPlus(u, v, b)
    ensures StuckPlus(s, v, a + b)
  {
    forall t ensures StuckBy(v, t) <==> StuckBy(s, t) || t in a + b {
      assert StuckBy(u, t) <==> StuckBy(s, t) || t in a;
    }
    forall t | Awaits(s, t, Nobody) ensures Awaits(v, t, Nobody) {
      assert Awaits(u, t, Nobody);
    }
  }

  // ---- The kernel's moves

  function WithThread(s: Sys, t: Tid, th: Thr): Sys {
    s.(threads := s.threads[t := th])
  }

  /** The sender that thread c held, if any, is left without a waker. */
  ghost function Forgotten(s: Sys, c: Tid): map<Tid, Waker>
    requires c in s.threads
  {
    match s.threads[c].sender
    case None => s.waker
    case Some(x) => s.waker[x := Nobody]
  }

  /** Whoever waits for c's answer will never be woken. */
  ghost predicate Forsaken(s: Sys, c: Tid, u: Sys) {
    c in s.threads && s.threads[c].sender.Some? ==> Awaits(u, s.threads[c].sender.value, Nobody)
  }

  /** The message of thread c is as it was. */
  ghost predicate KeptMessage(s: Sys, c: Tid, u: Sys) {
    c in s.threads && c in u.threads && u.threads[c].size == s.threads[c].size && u.threads[c].room == s.threads[c].room
  }

  /** The current thread waits for a receiver. */
  ghost function QueueSender(s: Sys, c: Tid, e: Eid): Sys
    requires c in s.threads && e in s.eps
  {
    s.(threads := s.threads[c := s.threads[c].(state := Blocked, place := InSend)],
       eps := s.eps[e := s.eps[e].(sendList := s.eps[e].sendList + [c])],
       waker := s.waker[c := SendQueue(e)])
  }

  lemma NoDupAppend(q: seq<Tid>, t: Tid)
    requires NoDup(q) && t !in q
    ensures NoDup(q + [t])
  {}

  ghost predicate OthersSame(a: map<Eid, Ep>, b: map<Eid, Ep>, e: Eid) {
    e in a && a.Keys == b.Keys && forall f <- a :: f != e ==> b[f] == a[f]
  }

  lemma Shift(a: seq<Tid>, q: seq<Tid>)
    requires q != []
    ensures a + [q[0]] + q[1..] == a + q
  {}

  lemma NoDupTail(q: seq<Tid>)
    requires NoDup(q) && q != []
    ensures NoDup(q[1..]) && q[0] !in q[1..]
    ensures forall t :: t in q[1..] ==> t in q
  {}

  lemma QueueSenderKeeps(s: Sys, c: Tid, e: Eid)
    requires Inv(s, Some(c)) && e in s.eps && s.eps[e].recvList == [] && s.threads[c].place.UserCode?
    ensures Inv(QueueSender(s, c, e), None)
  {
    var u := QueueSender(s, c, e);
    assert ThreadOk(s, Some(c), c) && EndpointOk(s, e);
    NoDupAppend(s.eps[e].sendList, c);
    forall t | t in u.threads ensures ThreadOk(u, None, t) { assert ThreadOk(s, Some(c), t); }
    forall f | f in u.eps ensures EndpointOk(u, f) { assert EndpointOk(s, f); }
  }

  lemma QueueSenderStuck(s: Sys, c: Tid, e: Eid)
    requires Inv(s, Some(c)) && e in s.eps && s.threads[c].place.UserCode?
    ensures StuckPlus(s, QueueSender(s, c, e), {})
  {
    assert ThreadOk(s, Some(c), c);
  }

  /** The current thread waits for a message. */
  ghost function QueueReceiver(s: Sys, c: Tid, e: Eid, room: nat): Sys
    requires c in s.threads && e in s.eps
  {
    s.(threads := s.threads[c := s.threads[c].(state := Blocked, place := InReceive(e, room))],
       eps := s.eps[e := s.eps[e].(recvList := s.eps[e].recvList + [c])],
       waker := s.waker[c := RecvQueue(e)],
       strict := s.strict && s.threads[c].sender.None?)
  }

  lemma QueueReceiverKeeps(s: Sys, c: Tid, e: Eid, room: nat)
    requires Inv(s, Some(c)) && e in s.eps && s.eps[e].sendList == [] && s.threads[c].place.UserCode?
    requires s.threads[c].errno == NoError
    ensures Inv(QueueReceiver(s, c, e, room), None)
  {
    var u := QueueReceiver(s, c, e, room);
    assert ThreadOk(s, Some(c), c) && EndpointOk(s, e);
    NoDupAppend(s.eps[e].recvList, c);
    forall t | t in u.threads ensures ThreadOk(u, None, t) { assert ThreadOk(s, Some(c), t); }
    forall f | f in u.eps ensures EndpointOk(u, f) { assert EndpointOk(s, f); }
  }

  /** A thread that waits for another message before it has answered will never answer. */
  lemma QueueReceiverStuck(s: Sys, c: Tid, e: Eid, room: nat)
    requires Inv(s, Some(c)) && e in s.eps && s.threads[c].place.UserCode?
    ensures StuckPlus(s, QueueReceiver(s, c, e, room), Held(s.threads[c]))
  {
    var u := QueueReceiver(s, c, e, room);
    assert ThreadOk(s, Some(c), c);
    forall t ensures StuckBy(u, t) <==> StuckBy(s, t) || t in Held(s.threads[c]) {
      if t in s.threads { assert ThreadOk(s, Some(c), t); }
    }
  }

  /** In the same place and with the same error. */
  ghost predicate Same(a: Thr, b: Thr) {
    a.place == b.place && a.errno == b.errno
  }

  /** The head of the ready queue runs. */
  ghost function PickNext(s: Sys): Sys
    requires s.ready != [] && s.ready[0] in s.threads
  {
    var to := s.ready[0];
    s.(threads := s.threads[to := s.threads[to].(state := Running, credits := s.threads[to].credits + BASE_CREDITS)],
       ready := s.ready[1..])
  }

  lemma PickNextKeeps(s: Sys)
    requires Inv(s, None) && s.ready != []
    ensures s.ready[0] in s.threads && Inv(PickNext(s), Some(s.ready[0]))
  {
    var to, u := s.ready[0], PickNext(s);
    assert ThreadOk(s, None, to);
    forall t | t in u.threads ensures ThreadOk(u, Some(to), t) {
      assert ThreadOk(s, None, t);
      assert t in u.ready <==> t in s.ready && t != to;
    }
    forall f | f in u.eps ensures EndpointOk(u, f) { assert EndpointOk(s, f); }
  }

  lemma PickNextStuck(s: Sys)
    requires Inv(s, None) && s.ready != []
    ensures s.ready[0] in s.threads && StuckPlus(s, PickNext(s), {})
  {
    assert ThreadOk(s, None, s.ready[0]);
  }

  /** The first waiting receiver is given the current thread's message and runs at once. */
  ghost function HandOver(s: Sys, c: Tid, e: Eid): Sys
    requires c in s.threads && e in s.eps && s.eps[e].recvList != [] && s.eps[e].recvList[0] in s.threads
  {
    var r := s.eps[e].recvList[0];
    var blocked := s.threads[c := s.threads[c].(state := Blocked, place := InSend)];
    s.(threads := blocked[r := blocked[r].(state := Running, sender := Some(c))],
       eps := s.eps[e := s.eps[e].(recvList := s.eps[e].recvList[1..])],
       waker := (Forgotten(s, r) - {r})[c := Holder(r)])
  }

  lemma HandOverThread(s: Sys, c: Tid, e: Eid, t: Tid)
    requires Inv(s, Some(c)) && e in s.eps && s.eps[e].recvList != [] && !s.eps[e].destroyed
    requires s.threads[c].place.UserCode? && t in s.threads
    ensures s.eps[e].recvList[0] in s.threads && ThreadOk(HandOver(s, c, e), Some(s.eps[e].recvList[0]), t)
  {
    var r := s.eps[e].recvList[0];
    assert EndpointOk(s, e) && Awaits(s, r, RecvQueue(e));
    assert ThreadOk(s, Some(c), c) && ThreadOk(s, Some(c), r) && ThreadOk(s, Some(c), t);
    NoDupTail(s.eps[e].recvList);
  }

  lemma HandOverKeeps(s: Sys, c: Tid, e: Eid)
    requires Inv(s, Some(c)) && e in s.eps && s.eps[e].recvList != [] && !s.eps[e].destroyed
    requires s.threads[c].place.UserCode?
    ensures var r := s.eps[e].recvList[0];
            r in s.threads && r != c && Inv(HandOver(s, c, e), Some(r)) && Forsaken(s, r, HandOver(s, c, e))
  {
    var r := s.eps[e].recvList[0];
    assert EndpointOk(s, e) && Awaits(s, r, RecvQueue(e));
    assert ThreadOk(s, Some(c), c) && ThreadOk(s, Some(c), r);
    NoDupTail(s.eps[e].recvList);
    var u := HandOver(s, c, e);
    forall t | t in u.threads ensures ThreadOk(u, Some(r), t) { HandOverThread(s, c, e, t); }
    forall f | f in u.eps ensures EndpointOk(u, f) { assert EndpointOk(s, f); }
  }

  /** Whom the receiver held is lost; it was stuck already. */
  lemma HandOverStuck(s: Sys, c: Tid, e: Eid)
    requires Inv(s, Some(c)) && e in s.eps && s.eps[e].recvList != [] && s.threads[c].place.UserCode?
    ensures s.eps[e].recvList[0] in s.threads && StuckPlus(s, HandOver(s, c, e), {})
  {
    var r := s.eps[e].recvList[0];
    assert EndpointOk(s, e) && Awaits(s, r, RecvQueue(e));
    assert ThreadOk(s, Some(c), c) && ThreadOk(s, Some(c), r);
    var u := HandOver(s, c, e);
    forall t ensures StuckBy(u, t) <==> StuckBy(s, t) {
      if t in s.threads { assert ThreadOk(s, Some(c), t); }
    }
  }

  /** The first waiting sender's message is now the current thread's to handle. */
  ghost function TakeSender(s: Sys, c: Tid, e: Eid): Sys
    requires c in s.threads && e in s.eps && s.eps[e].sendList != []
  {
    var x := s.eps[e].sendList[0];
    s.(threads := s.threads[c := s.threads[c].(sender := Some(x))],
       eps := s.eps[e := s.eps[e].(sendList := s.eps[e].sendList[1..])],
       waker := Forgotten(s, c)[x := Holder(c)],
       strict := s.strict && s.threads[c].sender.None?)
  }

  lemma TakeSenderKeeps(s: Sys, c: Tid, e: Eid)
    requires Inv(s, Some(c)) && e in s.eps && s.eps[e].sendList != [] && s.threads[c].place.UserCode?
    ensures s.eps[e].sendList[0] in s.threads && s.eps[e].sendList[0] != c
    ensures Inv(TakeSender(s, c, e), Some(c)) && Forsaken(s, c, TakeSender(s, c, e))
  {
    var u, x := TakeSender(s, c, e), s.eps[e].sendList[0];
    assert EndpointOk(s, e) && Awaits(s, x, SendQueue(e));
    NoDupTail(s.eps[e].sendList);
    assert ThreadOk(s, Some(c), c) && ThreadOk(s, Some(c), x);
    forall t | t in u.threads ensures ThreadOk(u, Some(c), t) { assert ThreadOk(s, Some(c), t); }
    forall f | f in u.eps ensures EndpointOk(u, f) { assert EndpointOk(s, f); }
  }

  lemma TakeSenderStuck(s: Sys, c: Tid, e: Eid)
    requires Inv(s, Some(c)) && e in s.eps && s.eps[e].sendList != [] && s.threads[c].place.UserCode?
    ensures StuckPlus(s, TakeSender(s, c, e), Held(s.threads[c]))
  {
    var x := s.eps[e].sendList[0];
    assert EndpointOk(s, e) && Awaits(s, x, SendQueue(e));
    assert ThreadOk(s, Some(c), c);
  }

  /** The sender the current thread holds is woken with an error. */
  ghost function RejectSender(s: Sys, c: Tid, errno: Errno): Sys
    requires c in s.threads && s.threads[c].sender.Some? && s.threads[c].sender.value in s.threads
  {
    var x := s.threads[c].sender.value;
    var forgot := s.threads[c := s.threads[c].(sender := None)];
    s.(threads := forgot[x := forgot[x].(state := Ready, errno := errno)], ready := s.ready + [x], waker := s.waker - {x})
  }

  lemma RejectSenderKeeps(s: Sys, c: Tid, errno: Errno)
    requires Inv(s, Some(c)) && s.threads[c].sender.Some? && s.threads[c].place.UserCode?
    ensures var x := s.threads[c].sender.value;
            x in s.threads && x != c && x !in s.ready && Inv(RejectSender(s, c, errno), Some(c))
  {
    var x := s.threads[c].sender.value;
    assert ThreadOk(s, Some(c), c) && ThreadOk(s, Some(c), x);
    var u := RejectSender(s, c, errno);
    NoDupAppend(s.ready, x);
    forall t | t in u.threads ensures ThreadOk(u, Some(c), t) { assert ThreadOk(s, Some(c), t); }
    forall f | f in u.eps ensures EndpointOk(u, f) { assert EndpointOk(s, f); }
  }

  lemma RejectSenderStuck(s: Sys, c: Tid, errno: Errno)
    requires Inv(s, Some(c)) && s.threads[c].sender.Some? && s.threads[c].place.UserCode?
    ensures s.threads[c].sender.value in s.threads && StuckPlus(s, RejectSender(s, c, errno), {})
  {
    var x := s.threads[c].sender.value;
    assert ThreadOk(s, Some(c), c) && ThreadOk(s, Some(c), x);
  }

  /** The current thread forgets the sender it holds, who stays blocked. */
  ghost function DropSender(s: Sys, c: Tid): Sys
    requires c in s.threads
  {
    s.(threads := s.threads[c := s.threads[c].(sender := None)], waker := Forgotten(s, c),
       strict := s.strict && s.threads[c].sender.None?)
  }

  lemma DropSenderKeeps(s: Sys, c: Tid)
    requires Inv(s, Some(c)) && !s.threads[c].place.InReceive?
    ensures Inv(DropSender(s, c), Some(c))
  {
    var u := DropSender(s, c);
    assert ThreadOk(s, Some(c), c);
    forall t | t in u.threads ensures ThreadOk(u, Some(c), t) { assert ThreadOk(s, Some(c), t); }
    forall f | f in u.eps ensures EndpointOk(u, f) { assert EndpointOk(s, f); }
  }

  lemma DropSenderStuck(s: Sys, c: Tid)
    requires Inv(s, Some(c)) && s.threads[c].place.UserCode?
    ensures StuckPlus(s, DropSender(s, c), Held(s.threads[c]))
  {
    assert ThreadOk(s, Some(c), c);
  }

  /** Reply: the sender runs at once, the current thread goes to the end of the ready queue. */
  ghost function SwitchToSender(s: Sys, c: Tid, errno: Errno): Sys
    requires c in s.threads && s.threads[c].sender.Some? && s.threads[c].sender.value in s.threads
  {
    var x := s.threads[c].sender.value;
    var forgot := s.threads[c := s.threads[c].(sender := None, state := Ready)];
    s.(threads := forgot[x := forgot[x].(state := Running, errno := errno)], ready := s.ready + [c], waker := s.waker - {x})
  }

  lemma SwitchToSenderKeeps(s: Sys, c: Tid, errno: Errno)
    requires Inv(s, Some(c)) && s.threads[c].sender.Some? && s.threads[c].place.UserCode?
    ensures var x := s.threads[c].sender.value;
            x in s.threads && x != c && Inv(SwitchToSender(s, c, errno), Some(x))
  {
    var x := s.threads[c].sender.value;
    assert ThreadOk(s, Some(c), c) && ThreadOk(s, Some(c), x);
    var u := SwitchToSender(s, c, errno);
    NoDupAppend(s.ready, c);
    forall t | t in u.threads ensures ThreadOk(u, Some(x), t) { assert ThreadOk(s, Some(c), t); }
    forall f | f in u.eps ensures EndpointOk(u, f) { assert EndpointOk(s, f); }
  }

  lemma SwitchToSenderStuck(s: Sys, c: Tid, errno: Errno)
    requires Inv(s, Some(c)) && s.threads[c].sender.Some? && s.threads[c].place.UserCode?
    ensures s.threads[c].sender.value in s.threads && StuckPlus(s, SwitchToSender(s, c, errno), {})
  {
    var x := s.threads[c].sender.value;
    assert ThreadOk(s, Some(c), c) && ThreadOk(s, Some(c), x);
  }

  /** The current thread waits for u to terminate. */
  ghost function QueueAwaiter(s: Sys, c: Tid, u: Tid): Sys
    requires c in s.threads && u in s.threads
  {
    var noted := s.threads[u := s.threads[u].(awaiter := Some(c))];
    s.(threads := noted[c := noted[c].(state := Blocked, place := InAwait)], waker := s.waker[c := Exit(u)])
  }

  lemma QueueAwaiterKeeps(s: Sys, c: Tid, u: Tid)
    requires Inv(s, Some(c)) && u in s.threads && u != c && Unfinished(s.threads[u]) && s.threads[u].awaiter.None?
    ensures Inv(QueueAwaiter(s, c, u), None)
  {
    var v := QueueAwaiter(s, c, u);
    assert ThreadOk(s, Some(c), c) && ThreadOk(s, Some(c), u);
    forall t | t in v.threads ensures ThreadOk(v, None, t) { assert ThreadOk(s, Some(c), t); }
    forall f | f in v.eps ensures EndpointOk(v, f) { assert EndpointOk(s, f); }
  }

  lemma QueueAwaiterStuck(s: Sys, c: Tid, u: Tid)
    requires Inv(s, Some(c)) && u in s.threads && s.threads[c].place.UserCode?
    ensures StuckPlus(s, QueueAwaiter(s, c, u), {})
  {
    assert ThreadOk(s, Some(c), c);
  }

  /** Who awaited c is ready. */
  ghost function WakeAwaiter(s: Sys, c: Tid): Sys
    requires c in s.threads && (s.threads[c].awaiter.Some? ==> s.threads[c].awaiter.value in s.threads)
  {
    match s.threads[c].awaiter
    case None => s
    case Some(a) =>
      s.(threads := s.threads[a := s.threads[a].(state := Ready)], ready := s.ready + [a], waker := s.waker - {a})
  }

  /** The sender that c did not answer is ready, with an error. */
  ghost function WakeSender(s: Sys, c: Tid): Sys
    requires c in s.threads && (s.threads[c].sender.Some? ==> s.threads[c].sender.value in s.threads)
  {
    match s.threads[c].sender
    case None => s
    case Some(x) =>
      var forgot := s.threads[c := s.threads[c].(sender := None)];
      s.(threads := forgot[x := forgot[x].(errno := EIO, state := Ready)], ready := s.ready + [x], waker := s.waker - {x})
  }

  /** A thread becomes a zombie: who awaited it is ready, and so is the sender it did not answer. */
  ghost function Terminate(s: Sys, c: Tid): Sys
    requires c in s.threads && (s.threads[c].awaiter.Some? ==> s.threads[c].awaiter.value in s.threads)
    requires s.threads[c].sender.Some? ==> s.threads[c].sender.value in s.threads
  {
    WakeSender(WakeAwaiter(WithThread(s, c, s.threads[c].(state := Zombie)), c), c)
  }

  ghost function Woken(th: Thr): seq<Tid> {
    (if th.awaiter.Some? then [th.awaiter.value] else []) + (if th.sender.Some? then [th.sender.value] else [])
  }

  /** Who waits for c to terminate and who waits for its answer are two blocked threads. */
  lemma TerminateWakes(s: Sys, c: Tid)
    requires Inv(s, Some(c))
    ensures s.threads[c].awaiter.Some? ==>
              var a := s.threads[c].awaiter.value;
              a in s.threads && a != c && a !in s.ready && Awaits(s, a, Exit(c))
    ensures s.threads[c].sender.Some? ==>
              var x := s.threads[c].sender.value;
              x in s.threads && x != c && x !in s.ready && s.threads[c].awaiter != Some(x) && Awaits(s, x, Holder(c))
  {
    assert ThreadOk(s, Some(c), c);
    if s.threads[c].awaiter.Some? {
      assert ThreadOk(s, Some(c), s.threads[c].awaiter.value);
    }
    if s.threads[c].sender.Some? {
      assert ThreadOk(s, Some(c), s.threads[c].sender.value);
    }
  }

  ghost predicate WaitsFor(s: Sys, c: Tid, t: Tid)
    requires c in s.threads
  {
    s.threads[c].awaiter == Some(t) || s.threads[c].sender == Some(t)
  }

  /** What termination of c does to one thread. */
  ghost predicate FinishedAt(s: Sys, c: Tid, u: Sys, t: Tid)
    requires c in s.threads && t in s.threads && t in u.threads
  {
    && (t in u.ready <==> t in s.ready || WaitsFor(s, c, t))
    && (t in u.waker <==> t in s.waker && !WaitsFor(s, c, t))
    && (t in u.waker ==> u.waker[t] == s.waker[t])
    && (t != c && !WaitsFor(s, c, t) ==> u.threads[t] == s.threads[t])
    && (t == c ==> u.threads[t] == s.threads[t].(state := Zombie, sender := None))
    && (t != c && WaitsFor(s, c, t) ==> u.threads[t] == s.threads[t].(state := Ready, errno := u.threads[t].errno))
  }

  lemma TerminateThread(s: Sys, c: Tid, u: Sys, t: Tid)
    requires Inv(s, Some(c)) && s.threads[c].place.UserCode? && t in s.threads
    requires u.eps == s.eps && u.strict == s.strict && u.threads.Keys == s.threads.Keys
    requires forall x <- s.threads :: FinishedAt(s, c, u, x)
    ensures ThreadOk(u, None, t)
  {
    TerminateWakes(s, c);
    assert ThreadOk(s, Some(c), c) && ThreadOk(s, Some(c), t) && FinishedAt(s, c, u, t);
  }

  lemma TerminateShape(s: Sys, c: Tid)
    requires Inv(s, Some(c))
    ensures (s.threads[c].awaiter.Some? ==> s.threads[c].awaiter.value in s.threads)
    ensures (s.threads[c].sender.Some? ==> s.threads[c].sender.value in s.threads)
    ensures var u := Terminate(s, c);
            && u.eps == s.eps && u.strict == s.strict && u.threads.Keys == s.threads.Keys
            && u.waker.Keys <= s.waker.Keys && NoDup(u.ready) && forall x <- s.threads :: FinishedAt(s, c, u, x)
  {
    TerminateWakes(s, c);
    var q := s.ready;
    if s.threads[c].awaiter.Some? {
      NoDupAppend(q, s.threads[c].awaiter.value);
      q := q + [s.threads[c].awaiter.value];
    }
    if s.threads[c].sender.Some? {
      NoDupAppend(q, s.threads[c].sender.value);
    }
  }

  lemma TerminateKeeps(s: Sys, c: Tid)
    requires Inv(s, Some(c)) && s.threads[c].place.UserCode?
    ensures (s.threads[c].awaiter.Some? ==> s.threads[c].awaiter.value in s.threads)
    ensures (s.threads[c].sender.Some? ==> s.threads[c].sender.value in s.threads)
    ensures Inv(Terminate(s, c), None)
  {
    TerminateWakes(s, c);
    TerminateShape(s, c);
    var u := Terminate(s, c);
    forall t | t in u.threads ensures ThreadOk(u, None, t) { TerminateThread(s, c, u, t); }
    forall f | f in u.eps ensures EndpointOk(u, f) { assert EndpointOk(s, f); }
  }

  lemma TerminateStuck(s: Sys, c: Tid)
    requires Inv(s, Some(c)) && s.threads[c].place.UserCode?
    ensures (s.threads[c].awaiter.Some? ==> s.threads[c].awaiter.value in s.threads)
    ensures (s.threads[c].sender.Some? ==> s.threads[c].sender.value in s.threads)
    ensures StuckPlus(s, Terminate(s, c), {})
  {
    TerminateWakes(s, c);
    TerminateShape(s, c);
    var u := Terminate(s, c);
    forall t ensures StuckBy(u, t) <==> StuckBy(s, t) {
      TerminateStuckAt(s, c, u, t);
    }
  }

  lemma TerminateStuckAt(s: Sys, c: Tid, u: Sys, t: Tid)
    requires Inv(s, Some(c)) && s.threads[c].place.UserCode?
    requires u.threads.Keys == s.threads.Keys && u.waker.Keys <= s.waker.Keys
    requires forall x <- s.threads :: FinishedAt(s, c, u, x)
    ensures StuckBy(u, t) <==> StuckBy(s, t)
    ensures Awaits(s, t, Nobody) ==> Awaits(u, t, Nobody)
  {
    TerminateWakes(s, c);
    if t in s.waker {
      assert FinishedAt(s, c, u, t) && ThreadOk(s, Some(c), t);
      if s.waker[t].Holder? {
        var r := s.waker[t].r;
        assert FinishedAt(s, c, u, r) && ThreadOk(s, Some(c), r);
        if WaitsFor(s, c, r) { assert ThreadOk(s, Some(c), c); }
      }
    }
  }

  /** A created or finished thread is prepared and made ready. */
  ghost function StartThread(s: Sys, u: Tid): Sys
    requires u in s.threads
  {
    s.(threads := s.threads[u := s.threads[u].(state := Ready, place := UserCode, sender := None, awaiter := None, credits := 0)],
       ready := s.ready + [u])
  }

  lemma StartThreadKeeps(s: Sys, cur: Option<Tid>, u: Tid)
    requires Inv(s, cur) && u in s.threads && !Unfinished(s.threads[u])
    ensures u !in s.ready && Inv(StartThread(s, u), cur)
  {
    var v := StartThread(s, u);
    assert ThreadOk(s, cur, u);
    NoDupAppend(s.ready, u);
    forall t | t in v.threads ensures ThreadOk(v, cur, t) { assert ThreadOk(s, cur, t); }
    forall f | f in v.eps ensures EndpointOk(v, f) { assert EndpointOk(s, f); }
  }

  lemma StartThreadStuck(s: Sys, cur: Option<Tid>, u: Tid)
    requires Inv(s, cur) && u in s.threads && !Unfinished(s.threads[u])
    ensures StuckPlus(s, StartThread(s, u), {})
  {
    assert ThreadOk(s, cur, u);
  }

  /** The current thread gives way to the head of the ready queue. */
  ghost function GiveWay(s: Sys, c: Tid): Sys
    requires c in s.threads && s.ready != [] && s.ready[0] in s.threads
  {
    var to := s.ready[0];
    var run := s.threads[to := s.threads[to].(state := Running, credits := s.threads[to].credits + BASE_CREDITS)];
    s.(threads := run[c := run[c].(state := Ready)], ready := s.ready[1..] + [c])
  }

  lemma GiveWayKeeps(s: Sys, c: Tid)
    requires Inv(s, Some(c)) && s.threads[c].place.UserCode? && s.ready != []
    ensures s.ready[0] in s.threads && s.ready[0] != c && Inv(GiveWay(s, c), Some(s.ready[0]))
  {
    var to := s.ready[0];
    assert ThreadOk(s, Some(c), c) && ThreadOk(s, Some(c), to);
    var u := GiveWay(s, c);
    NoDupAppend(s.ready[1..], c);
    forall t | t in u.threads ensures ThreadOk(u, Some(to), t) {
      assert ThreadOk(s, Some(c), t);
      assert t in u.ready <==> t == c || (t in s.ready && t != to);
    }
    forall f | f in u.eps ensures EndpointOk(u, f) { assert EndpointOk(s, f); }
  }

  lemma GiveWayStuck(s: Sys, c: Tid)
    requires Inv(s, Some(c)) && s.threads[c].place.UserCode? && s.ready != []
    ensures s.ready[0] in s.threads && StuckPlus(s, GiveWay(s, c), {})
  {
    assert ThreadOk(s, Some(c), c) && ThreadOk(s, Some(c), s.ready[0]);
  }

  /** The first thread queued on an endpoint is woken with an I/O error. */
  ghost function AbortFirst(s: Sys, e: Eid, sending: bool): Sys
    requires e in s.eps && FirstQueued(s, e, sending).Some? && FirstQueued(s, e, sending).value in s.threads
  {
    var t := FirstQueued(s, e, sending).value;
    var ep := if sending then s.eps[e].(sendList := s.eps[e].sendList[1..])
              else s.eps[e].(recvList := s.eps[e].recvList[1..]);
    s.(threads := s.threads[t := s.threads[t].(state := Ready, errno := EIO)], ready := s.ready + [t],
       eps := s.eps[e := ep], waker := s.waker - {t})
  }

  ghost function FirstQueued(s: Sys, e: Eid, sending: bool): Option<Tid>
    requires e in s.eps
  {
    var q := if sending then s.eps[e].sendList else s.eps[e].recvList;
    if q == [] then None else Some(q[0])
  }

  lemma AbortFirstKeeps(s: Sys, cur: Option<Tid>, e: Eid, sending: bool)
    requires Inv(s, cur) && e in s.eps && FirstQueued(s, e, sending).Some?
    ensures var t := FirstQueued(s, e, sending).value;
            t in s.threads && t !in s.ready && Inv(AbortFirst(s, e, sending), cur)
  {
    var x := FirstQueued(s, e, sending).value;
    assert EndpointOk(s, e) && Awaits(s, x, if sending then SendQueue(e) else RecvQueue(e));
    assert ThreadOk(s, cur, x);
    NoDupAppend(s.ready, x);
    var u := AbortFirst(s, e, sending);
    forall t | t in u.threads ensures ThreadOk(u, cur, t) { AbortFirstThread(s, cur, e, sending, t); }
    forall f | f in u.eps ensures EndpointOk(u, f) { AbortFirstEndpoint(s, cur, e, sending, f); }
  }

  lemma AbortFirstStuck(s: Sys, cur: Option<Tid>, e: Eid, sending: bool)
    requires Inv(s, cur) && e in s.eps && FirstQueued(s, e, sending).Some?
    ensures FirstQueued(s, e, sending).value in s.threads && StuckPlus(s, AbortFirst(s, e, sending), {})
  {
    var x := FirstQueued(s, e, sending).value;
    assert EndpointOk(s, e) && Awaits(s, x, if sending then SendQueue(e) else RecvQueue(e));
    assert ThreadOk(s, cur, x);
  }

  lemma AbortFirstThread(s: Sys, cur: Option<Tid>, e: Eid, sending: bool, t: Tid)
    requires Inv(s, cur) && e in s.eps && FirstQueued(s, e, sending).Some?
    requires FirstQueued(s, e, sending).value in s.threads && t in s.threads
    ensures ThreadOk(AbortFirst(s, e, sending), cur, t)
  {
    var x := FirstQueued(s, e, sending).value;
    assert EndpointOk(s, e) && Awaits(s, x, if sending then SendQueue(e) else RecvQueue(e));
    assert ThreadOk(s, cur, x) && ThreadOk(s, cur, t);
    NoDupTail(if sending then s.eps[e].sendList else s.eps[e].recvList);
  }

  lemma AbortFirstEndpoint(s: Sys, cur: Option<Tid>, e: Eid, sending: bool, f: Eid)
    requires Inv(s, cur) && e in s.eps && FirstQueued(s, e, sending).Some?
    requires FirstQueued(s, e, sending).value in s.threads && f in s.eps
    ensures EndpointOk(AbortFirst(s, e, sending), f)
  {
    var x := FirstQueued(s, e, sending).value;
    assert EndpointOk(s, e) && Awaits(s, x, if sending then SendQueue(e) else RecvQueue(e));
    assert EndpointOk(s, f);
    NoDupTail(if sending then s.eps[e].sendList else s.eps[e].recvList);
  }

  // ---- Order

  /** The ready queue only grows at its end, and at most its first thread left it. */
  ghost predicate Advanced(q: seq<Tid>, r: seq<Tid>) {
    || q <= r
    || (q != [] && q[1..] <= r && q[0] !in r)
  }

  /** A thread that stays ready never moves back in the queue. */
  lemma NeverMovesBack(q: seq<Tid>, r: seq<Tid>, i: nat, j: nat)
    requires Advanced(q, r) && NoDup(r) && i < |q| && j < |r| && q[i] == r[j]
    ensures j <= i
  {
    if q <= r {
      assert r[i] == q[i];
    } else {
      assert i > 0;
      assert r[i - 1] == q[1..][i - 1];
    }
  }

  // ---- The kernel

  /** On every endpoint, senders are taken off the queue in the order they joined it. */
  ghost predicate InOrder(sent: map<Eid, seq<Tid>>, got: map<Eid, seq<Tid>>, eps: map<Eid, Ep>) {
    && sent.Keys == got.Keys == eps.Keys
    && forall e {:trigger OrderAt(sent, got, eps, e)} :: e in eps ==> OrderAt(sent, got, eps, e)
  }

  ghost predicate OrderAt(sent: map<Eid, seq<Tid>>, got: map<Eid, seq<Tid>>, eps: map<Eid, Ep>, e: Eid)
    requires sent.Keys == got.Keys == eps.Keys && e in eps
  {
    sent[e] == got[e] + eps[e].sendList
  }

  /** One endpoint changes, in order; the others are as they were. */
  lemma StaysInOrder(s0: map<Eid, seq<Tid>>, g0: map<Eid, seq<Tid>>, e0: map<Eid, Ep>,
                     s1: map<Eid, seq<Tid>>, g1: map<Eid, seq<Tid>>, e1: map<Eid, Ep>, e: Eid)
    requires InOrder(s0, g0, e0) && s1.Keys == g1.Keys == e1.Keys == e0.Keys + {e}
    requires forall f <- e0 :: f != e ==> s1[f] == s0[f] && g1[f] == g0[f] && e1[f].sendList == e0[f].sendList
    requires s1[e] == g1[e] + e1[e].sendList
    ensures InOrder(s1, g1, e1)
  {
    forall f | f in e1 ensures OrderAt(s1, g1, e1, f) {
      assert f != e ==> OrderAt(s0, g0, e0, f);
    }
  }

  /** The first sender leaves the queue. */
  lemma DequeuedInOrder(sent: map<Eid, seq<Tid>>, got: map<Eid, seq<Tid>>, eps: map<Eid, Ep>, e: Eid)
    requires InOrder(sent, got, eps) && e in eps && eps[e].sendList != []
    ensures InOrder(sent, got[e := got[e] + [eps[e].sendList[0]]], eps[e := eps[e].(sendList := eps[e].sendList[1..])])
  {
    var got1, eps1 := got[e := got[e] + [eps[e].sendList[0]]], eps[e := eps[e].(sendList := eps[e].sendList[1..])];
    assert OrderAt(sent, got, eps, e);
    Shift(got[e], eps[e].sendList);
    StaysInOrder(sent, got, eps, sent, got1, eps1, e);
  }

  lemma DequeuedFrom(sent: map<Eid, seq<Tid>>, got: map<Eid, seq<Tid>>, eps: map<Eid, Ep>, e: Eid)
    requires InOrder(sent, got, eps) && AllDrained(eps) && e in eps && eps[e].sendList != []
    ensures var eps1 := eps[e := eps[e].(sendList := eps[e].sendList[1..])];
            InOrder(sent, got[e := got[e] + [eps[e].sendList[0]]], eps1) && AllDrained(eps1)
  {
    assert DrainedAt(eps, e);
    DequeuedInOrder(sent, got, eps, e);
    StaysDrained(eps, eps[e := eps[e].(sendList := eps[e].sendList[1..])], e);
  }

  ghost predicate AllDrained(eps: map<Eid, Ep>) {
    forall e {:trigger DrainedAt(eps, e)} :: e in eps ==> DrainedAt(eps, e)
  }

  ghost predicate DrainedAt(eps: map<Eid, Ep>, e: Eid)
    requires e in eps
  {
    eps[e].destroyed ==> eps[e].sendList == eps[e].recvList == []
  }

  lemma ReceiverLeaves(sent: map<Eid, seq<Tid>>, got: map<Eid, seq<Tid>>, eps: map<Eid, Ep>, e: Eid)
    requires InOrder(sent, got, eps) && AllDrained(eps) && e in eps && eps[e].recvList != []
    ensures var eps1 := eps[e := eps[e].(recvList := eps[e].recvList[1..])]; InOrder(sent, got, eps1) && AllDrained(eps1)
  {
    var eps1 := eps[e := eps[e].(recvList := eps[e].recvList[1..])];
    assert DrainedAt(eps, e) && OrderAt(sent, got, eps, e);
    StaysInOrder(sent, got, eps, sent, got, eps1, e);
    StaysDrained(eps, eps1, e);
  }

  lemma StaysDrained(a: map<Eid, Ep>, b: map<Eid, Ep>, e: Eid)
    requires AllDrained(a) && e in b && b.Keys == a.Keys + {e} && (forall f <- a :: f != e ==> b[f] == a[f])
    requires DrainedAt(b, e)
    ensures AllDrained(b)
  {
    forall f | f in b ensures DrainedAt(b, f) {
      assert f != e ==> DrainedAt(a, f);
    }
  }

  /** Everyone in q is ready, with an I/O error. */
  ghost predicate Aborted(threads: map<Tid, Thr>, q: seq<Tid>) {
    forall t <- q :: t in threads && threads[t].state.Ready? && threads[t].errno == EIO
  }

  ghost predicate WokeAlone(a: map<Tid, Thr>, t: Tid, b: map<Tid, Thr>) {
    t in a && b == a[t := a[t].(state := Ready, errno := EIO)]
  }

  /** From s to u, the threads `done` of one queue of e, in order, have been woken with an error. */
  ghost predicate Draining(s: Sys, u: Sys, e: Eid, done: seq<Tid>, senders: bool) {
    && OthersSame(s.eps, u.eps, e)
    && (if senders then u.eps[e] == s.eps[e].(sendList := u.eps[e].sendList) && s.eps[e].sendList == done + u.eps[e].sendList
        else u.eps[e] == s.eps[e].(recvList := u.eps[e].recvList) && s.eps[e].recvList == done + u.eps[e].recvList)
    && u.ready == s.ready + done && Aborted(u.threads, done) && OnlyBlockedWoken(s.threads, u.threads) && StuckPlus(s, u, {})
  }

  lemma DrainedMore(s: Sys, v: Sys, u: Sys, e: Eid, done: seq<Tid>, x: Tid, senders: bool)
    requires Draining(s, v, e, done, senders) && x in v.threads && v.threads[x].state.Blocked?
    requires OthersSame(v.eps, u.eps, e) && u.ready == v.ready + [x] && WokeAlone(v.threads, x, u.threads) && StuckPlus(v, u, {})
    requires if senders then v.eps[e].sendList != [] && v.eps[e].sendList[0] == x && u.eps[e] == v.eps[e].(sendList := v.eps[e].sendList[1..])
             else v.eps[e].recvList != [] && v.eps[e].recvList[0] == x && u.eps[e] == v.eps[e].(recvList := v.eps[e].recvList[1..])
    ensures Draining(s, u, e, done + [x], senders)
  {
    Shift(done, if senders then v.eps[e].sendList else v.eps[e].recvList);
    assert (s.ready + done) + [x] == s.ready + (done + [x]);
    WokenMore(s.threads, v.threads, u.threads, x);
    StuckThen(s, v, u, {}, {});
    assert forall t <- done :: t != x;
  }

  class Kernel {
    var threads: map<Tid, Thr>
    var ready: seq<Tid>
    var eps: map<Eid, Ep>
    var current: Tid
    var halted: bool     // panic: no thread to schedule
    ghost var waker: map<Tid, Waker>
    ghost var strict: bool
    ghost var sent: map<Eid, seq<Tid>>   // senders in the order they queued up
    ghost var got: map<Eid, seq<Tid>>    // senders in the order they were taken off the queue

    ghost function View(): Sys
      reads this
    {
      Sys(threads, ready, eps, waker, strict)
    }

    ghost predicate Fifo()
      reads this`sent, this`got, this`eps
    {
      InOrder(sent, got, eps)
    }

    /** No thread is queued on a destroyed endpoint. */
    ghost predicate Drained()
      reads this`eps
    {
      AllDrained(eps)
    }

    ghost predicate Valid()
      reads this
    {
      Inv(View(), if halted then None else Some(current)) && Fifo() && Drained()
    }

    ghost predicate InUserCode()
      reads this
    {
      !halted && current in threads && threads[current].place.UserCode?
    }

    /** Add a thread that is not queued to the end of the ready queue. */
    method ReadyThread(t: Tid)
      requires t in threads && t !in ready
      modifies this`threads, this`ready
      ensures threads == old(threads)[t := old(threads[t]).(state := Ready)]
      ensures ready == old(ready) + [t]
    {
      threads := threads[t := threads[t].(state := Ready)];
      ready := ready + [t];
    }

    /** Switch from a thread that cannot go on to the first ready one; without one there never will be one. */
    method SwitchToNext()
      requires !halted && Inv(View(), None) && Fifo() && Drained()
      modifies this
      ensures Valid() && halted == (old(ready) == [])
      ensures !halted ==> current == old(ready)[0] && ready == old(ready)[1..]
      ensures !halted ==> current in threads && Same(threads[current], old(threads)[current])
      ensures threads.Keys == old(threads.Keys) && forall t <- threads :: t !in old(ready) ==> threads[t] == old(threads[t])
      ensures waker == old(waker) && strict == old(strict) && sent == old(sent) && got == old(got) && eps == old(eps)
      ensures Advanced(old(ready), ready) && StuckPlus(old(View()), View(), {})
    {
      if ready == [] {
        halted := true;
        return;
      }
      PickNextKeeps(View());
      PickNextStuck(View());
      NoDupTail(ready);
      var to := ready[0];
      ready := ready[1..];
      threads := threads[to := threads[to].(credits := threads[to].credits + BASE_CREDITS)];
      threads := threads[to := threads[to].(state := Running)];
      current := to;
      assert View() == PickNext(old(View()));
    }

    /**
     * Send a message: to the first waiting receiver, which runs at once, or by
     * waiting at the end of the send queue.
     */
    method Send(e: Eid, size: nat, room: nat)
      requires Valid() && InUserCode() && e in eps && !eps[e].destroyed
      modifies this
      ensures Valid() && Advanced(old(ready), ready) && strict == old(strict)
      ensures old(current) in threads && threads[old(current)].size == size && threads[old(current)].room == room
      ensures old(eps[e].recvList) == [] ==>
                && sent == old(sent)[e := old(sent[e]) + [old(current)]] && got == old(got)
                && Awaits(View(), old(current), SendQueue(e))
      ensures old(eps[e].recvList) != [] ==>
                && !halted && current == old(eps[e].recvList)[0] && threads[current].sender == Some(old(current))
                && sent == old(sent) && got == old(got)
      ensures StuckPlus(old(View()), View(), {})
    {
      var c := current;
      threads := threads[c := threads[c].(errno := NoError, size := size, room := room)];
      MessageKeeps(old(View()), c, threads[c]);
      HoldersKnown(old(View()), Some(c));
      SameStuck(old(View()), View());
      if eps[e].recvList == [] {
        WaitToSend(c, e);
      } else {
        HandMessageOver(c, e);
      }
    }

    method WaitToSend(c: Tid, e: Eid)
      requires Valid() && InUserCode() && c == current && e in eps && !eps[e].destroyed && eps[e].recvList == []
      modifies this
      ensures Valid() && Advanced(old(ready), ready) && strict == old(strict)
      ensures sent == old(sent)[e := old(sent[e]) + [c]] && got == old(got)
      ensures Awaits(View(), c, SendQueue(e)) && KeptMessage(old(View()), c, View())
      ensures StuckPlus(old(View()), View(), {})
    {
      assert ThreadOk(View(), Some(c), c);
      QueueSenderStuck(View(), c, e);
      JoinSenders(c, e);
      SwitchToNext();
    }

    method JoinSenders(c: Tid, e: Eid)
      requires Valid() && InUserCode() && c == current && e in eps && !eps[e].destroyed && eps[e].recvList == []
      modifies this`eps, this`threads, this`waker, this`sent
      ensures View() == QueueSender(old(View()), c, e) && sent == old(sent)[e := old(sent[e]) + [c]]
      ensures Inv(View(), None) && Fifo() && Drained()
    {
      assert OrderAt(sent, got, eps, e);
      QueueSenderKeeps(View(), c, e);
      eps := eps[e := eps[e].(sendList := eps[e].sendList + [c])];
      threads := threads[c := threads[c].(state := Blocked, place := InSend)];
      waker := waker[c := SendQueue(e)];
      sent := sent[e := sent[e] + [c]];
      assert View() == QueueSender(old(View()), c, e);
      StaysInOrder(old(sent), old(got), old(eps), sent, got, eps, e);
      StaysDrained(old(eps), eps, e);
    }

    method HandMessageOver(c: Tid, e: Eid)
      requires Valid() && InUserCode() && c == current && e in eps && eps[e].recvList != []
      modifies this
      ensures Valid() && ready == old(ready)
      ensures !halted && current == old(eps[e].recvList)[0] && current in threads && threads[current].sender == Some(c)
      ensures strict == old(strict) && Forsaken(old(View()), current, View()) && KeptMessage(old(View()), c, View())
      ensures sent == old(sent) && got == old(got) && StuckPlus(old(View()), View(), {})
    {
      ghost var s := View();
      assert DrainedAt(eps, e);
      ReceiverLeaves(sent, got, eps, e);
      HandOverKeeps(s, c, e);
      HandOverStuck(s, c, e);
      PassOn(c, e);
    }

    method PassOn(c: Tid, e: Eid)
      requires c in threads && e in eps && eps[e].recvList != [] && eps[e].recvList[0] in threads
      modifies this`threads, this`eps, this`waker, this`current
      ensures View() == old(HandOver(View(), c, e)) && current == old(eps[e].recvList)[0]
    {
      ghost var s := View();
      var r := eps[e].recvList[0];
      eps := eps[e := eps[e].(recvList := eps[e].recvList[1..])];
      waker := (Forgotten(s, r) - {r})[c := Holder(r)];
      threads := threads[c := threads[c].(state := Blocked, place := InSend)];
      threads := threads[r := threads[r].(sender := Some(c))];
      threads := threads[r := threads[r].(state := Running)];
      current := r;
    }

    /** Take the first queued sender. */
    method TakeFirst(e: Eid) returns (x: Tid)
      requires Valid() && InUserCode() && e in eps && eps[e].sendList != []
      modifies this`threads, this`eps, this`waker, this`strict, this`got
      ensures Valid() && InUserCode()
      ensures x == old(eps[e].sendList)[0] && View() == old(TakeSender(View(), current, e)) && x in threads && x != current
      ensures got == old(got)[e := old(got[e]) + [x]]
    {
      ghost var s := View();
      TakeSenderKeeps(s, current, e);
      ghost var u := TakeSender(s, current, e);
      DequeuedFrom(sent, got, eps, e);
      var c, q := threads[current], eps[e].sendList;
      x := q[0];
      waker, strict, got := u.waker, u.strict, got[e := got[e] + [x]];
      eps := eps[e := eps[e].(sendList := q[1..])];
      threads := threads[current := c.(sender := Some(x))];
      assert View() == u;
    }

    /** Wake the sender that is held, with an error. */
    method Reject(errno: Errno)
      requires Valid() && InUserCode() && threads[current].sender.Some?
      modifies this`threads, this`ready, this`waker
      ensures Valid() && InUserCode() && WokeSender(old(View()), current, errno, View())
      ensures var x := old(threads[current].sender.value); x in threads && x != current && ready == old(ready) + [x]
    {
      ghost var s := View();
      RejectSenderKeeps(s, current, errno);
      assert ThreadOk(s, Some(current), current);
      var x := threads[current].sender.value;
      threads := threads[current := threads[current].(sender := None)];
      threads := threads[x := threads[x].(errno := errno)];
      waker := waker - {x};
      ReadyThread(x);
      assert View() == RejectSender(s, current, errno);
    }

    /** Forget the sender that is held. */
    method Drop()
      requires Valid() && InUserCode()
      modifies this`threads, this`waker, this`strict
      ensures Valid() && InUserCode()
      ensures threads == old(threads)[current := old(threads[current]).(sender := None)]
      ensures strict == (old(strict) && old(threads[current].sender).None?) && Forsaken(old(View()), current, View())
      ensures StuckPlus(old(View()), View(), Held(old(threads[current]))) && View() == old(DropSender(View(), current))
    {
      ghost var s := View();
      DropSenderKeeps(s, current);
      DropSenderStuck(s, current);
      waker := Forgotten(s, current);
      strict := strict && threads[current].sender.None?;
      threads := threads[current := threads[current].(sender := None)];
      assert View() == DropSender(s, current);
    }

    method WaitToReceive(e: Eid, room: nat)
      requires Valid() && InUserCode() && e in eps && !eps[e].destroyed && eps[e].sendList == []
      requires threads[current].errno == NoError
      modifies this
      ensures Valid() && Advanced(old(ready), ready)
      ensures strict == (old(strict) && old(threads[current].sender).None?)
      ensures sent == old(sent) && got == old(got)
      ensures Awaits(View(), old(current), RecvQueue(e)) && StuckPlus(old(View()), View(), Held(old(threads[current])))
    {
      ghost var s := View();
      var c := current;
      assert OrderAt(sent, got, eps, e);
      QueueReceiverKeeps(s, c, e, room);
      QueueReceiverStuck(s, c, e, room);
      assert ThreadOk(s, Some(c), c);
      eps := eps[e := eps[e].(recvList := eps[e].recvList + [c])];
      threads := threads[c := threads[c].(state := Blocked, place := InReceive(e, room))];
      waker := waker[c := RecvQueue(e)];
      strict := strict && threads[c].sender.None?;
      assert View() == QueueReceiver(s, c, e, room);
      StaysInOrder(old(sent), old(got), old(eps), sent, got, eps, e);
      StaysDrained(old(eps), eps, e);
      SwitchToNext();
    }

    /** Back from a send that blocked: the reply or the error is there. */
    method ResumeSend() returns (errno: Errno)
      requires Valid() && !halted && threads[current].place.InSend?
      modifies this`threads
      ensures Valid() && InUserCode() && errno == threads[current].errno && StuckPlus(old(View()), View(), {})
    {
      errno := threads[current].errno;
      ResumeKeeps(View(), current);
      threads := threads[current := threads[current].(place := UserCode)];
      HoldersKnown(old(View()), Some(current));
      SameStuck(old(View()), View());
    }

    /** Back from waiting for a thread to terminate. */
    method ResumeAwait()
      requires Valid() && !halted && threads[current].place.InAwait?
      modifies this`threads
      ensures Valid() && InUserCode() && StuckPlus(old(View()), View(), {})
    {
      ResumeKeeps(View(), current);
      threads := threads[current := threads[current].(place := UserCode)];
      HoldersKnown(old(View()), Some(current));
      SameStuck(old(View()), View());
    }

    constructor (first: Tid)
      ensures Valid() && !halted && current == first && threads.Keys == {first} && ready == [] && eps == map[]
      ensures InUserCode() && strict
    {
      threads := map[first := Thr(Running, UserCode, None, None, NoError, 0, 0, 0)];
      ready, eps, current, halted := [], map[], first, false;
      waker, strict, sent, got := map[], true, map[], map[];
      new;
      assert ThreadOk(View(), Some(first), first);
    }

    /** Back from waiting for a message: a sender has handed one over, or the endpoint is gone. */
    method ResumeReceive(valid: bool) returns (outcome: Outcome)
      requires Valid() && !halted && threads[current].place.InReceive?
      modifies this
      ensures Valid() && Advanced(old(ready), ready)
      ensures old(threads[current].errno) != NoError ==>
                && outcome == Failed(old(threads[current].errno)) && InUserCode() && threads[current].sender.None?
      ensures old(strict) && valid ==> strict
      ensures outcome.Got? ==> current == old(current) && InUserCode() && threads[current].sender == Some(outcome.from)
      ensures StuckPlus(old(View()), View(), Spoiled(outcome)) && (valid ==> !outcome.BadBuffer?)
    {
      if threads[current].errno != NoError {
        outcome := FailReceive();
      } else {
        outcome := TakeDelivery(valid);
      }
    }

    /** The endpoint is gone; whoever was still held is forgotten. */
    method FailReceive() returns (outcome: Outcome)
      requires Valid() && !halted && threads[current].place.InReceive? && threads[current].errno != NoError
      modifies this`threads, this`waker, this`strict
      ensures Valid() && InUserCode() && outcome == Failed(old(threads[current].errno)) && threads[current].sender.None?
      ensures (old(strict) ==> strict) && StuckPlus(old(View()), View(), {})
    {
      ghost var s := View();
      assert ThreadOk(s, Some(current), current);
      ResumeKeeps(s, current);
      threads := threads[current := threads[current].(place := UserCode)];
      var errno := threads[current].errno;
      FailedStuck(s, current);
      Drop();
      return Failed(errno);
    }

    /** The message that was handed over is taken, refused or found not to fit. */
    method TakeDelivery(valid: bool) returns (outcome: Outcome)
      requires Valid() && !halted && threads[current].place.InReceive? && threads[current].errno == NoError
      modifies this
      ensures Valid() && Advanced(old(ready), ready) && !outcome.Failed?
      ensures old(strict) && valid ==> strict
      ensures outcome.Got? ==> current == old(current) && InUserCode() && threads[current].sender == Some(outcome.from)
      ensures StuckPlus(old(View()), View(), Spoiled(outcome)) && (valid ==> !outcome.BadBuffer?)
    {
      ghost var s := View();
      assert ThreadOk(s, Some(current), current);
      var place := threads[current].place;
      ResumeKeeps(s, current);
      threads := threads[current := threads[current].(place := UserCode)];
      HoldersKnown(s, Some(current));
      SameStuck(s, View());
      ghost var v := View();
      var x := threads[current].sender.value;
      assert ThreadOk(s, Some(current), x);
      if threads[x].size > place.room {
        RejectSenderStuck(v, current, E2BIG);
        Reject(E2BIG);
        ghost var w := View();
        outcome := ReceiveNext(place.ep, place.room, valid);
        AdvancedAfter(old(ready), w.ready, ready);
        StuckThen(s, v, w, {}, {});
        StuckThen(s, w, View(), {}, Spoiled(outcome));
      } else if !valid {
        Drop();
        outcome := BadBuffer(x);
        StuckThen(s, v, View(), {}, {x});
      } else {
        outcome := Got(x);
      }
    }

    /** Answer the message being handled; `gathered` says whether the reply could be read from user space. */
    method Reply(size: nat, gathered: bool) returns (done: bool)
      requires Valid() && InUserCode()
      modifies this
      ensures Valid() && Advanced(old(ready), ready) && strict == old(strict)
      ensures done <==>
                && old(threads[current].sender).Some? && gathered
                && old(threads[current].sender.value) in old(threads)
                && size <= old(threads[threads[current].sender.value].room)
      ensures done ==>
                && !halted && current == old(threads[current].sender.value) && ready == old(ready) + [old(current)]
                && current in threads && threads[current].size == size
                && old(current) in threads && threads[old(current)].sender.None?
      ensures !done ==>
                && current == old(current) && ready == old(ready)
                && current in threads && threads[current].sender == old(threads[current].sender)
      ensures StuckPlus(old(View()), View(), {})
    {
      var c := current;
      if threads[c].sender.None? {
        return false;
      }
      var x := threads[c].sender.value;
      ghost var s := View();
      assert ThreadOk(s, Some(c), c) && ThreadOk(s, Some(c), x);
      SizeKeeps(s, c, x, size);
      threads := threads[x := threads[x].(size := size)];
      HoldersKnown(s, Some(c));
      SameStuck(s, View());
      if !gathered || size > threads[x].room {
        return false;
      }
      SwitchToSenderFrom(c, x, threads[x].errno);
      return true;
    }

    /** Answer the message being handled with an error code. */
    method ReplyError() returns (done: bool)
      requires Valid() && InUserCode()
      modifies this
      ensures Valid() && Advanced(old(ready), ready) && strict == old(strict)
      ensures done <==> old(threads[current].sender).Some?
      ensures done ==>
                && !halted && current == old(threads[current].sender.value) && ready == old(ready) + [old(current)]
                && current in threads && threads[current].errno == EPROTO
                && old(current) in threads && threads[old(current)].sender.None?
      ensures !done ==> current == old(current) && threads == old(threads)
      ensures StuckPlus(old(View()), View(), {})
    {
      var c := current;
      if threads[c].sender.None? {
        return false;
      }
      assert ThreadOk(View(), Some(c), c);
      SwitchToSenderFrom(c, threads[c].sender.value, EPROTO);
      return true;
    }

    /** The sender runs at once; the thread that answered is last in the ready queue. */
    method SwitchToSenderFrom(c: Tid, x: Tid, errno: Errno)
      requires Valid() && InUserCode() && c == current && threads[c].sender == Some(x)
      modifies this`threads, this`ready, this`waker, this`current
      ensures Valid() && !halted && current == x && ready == old(ready) + [c]
      ensures x in threads && c in threads && x in old(threads)
      ensures threads[x] == old(threads[x]).(state := Running, errno := errno)
      ensures threads[c] == old(threads[c]).(state := Ready, sender := None)
      ensures StuckPlus(old(View()), View(), {})
    {
      ghost var s := View();
      SwitchToSenderKeeps(s, c, errno);
      SwitchToSenderStuck(s, c, errno);
      assert ThreadOk(s, Some(c), c);
      threads := threads[x := threads[x].(errno := errno)];
      threads := threads[c := threads[c].(sender := None)];
      threads := threads[x := threads[x].(state := Running)];
      waker := waker - {x};
      ReadyThread(c);
      current := x;
      assert View() == SwitchToSender(s, c, errno);
    }

    /** Wait for a thread to terminate. */
    method Await(u: Tid) returns (status: AwaitStatus)
      requires Valid() && InUserCode() && u in threads
      modifies this
      ensures Valid() && Advanced(old(ready), ready) && strict == old(strict)
      ensures status == (if u == old(current) then Deadlock
                         else if old(threads[u].state).Created? || old(threads[u].awaiter).Some? then NoSuchThread
                         else if old(threads[u].state).Zombie? then AlreadyDone
                         else Waiting)
      ensures status.Waiting? ==> Awaits(View(), old(current), Exit(u))
      ensures !status.Waiting? ==> current == old(current) && ready == old(ready)
      ensures StuckPlus(old(View()), View(), {})
    {
      var c := current;
      if u == c {
        return Deadlock;
      }
      if threads[u].state.Created? || threads[u].awaiter.Some? {
        return NoSuchThread;
      }
      ghost var s := View();
      if threads[u].state.Zombie? {
        AwaitDoneKeeps(s, c, u);
        threads := threads[u := threads[u].(awaiter := Some(c))];
        HoldersKnown(s, Some(c));
        SameStuck(s, View());
        return AlreadyDone;
      }
      QueueAwaiterKeeps(s, c, u);
      QueueAwaiterStuck(s, c, u);
      assert ThreadOk(s, Some(c), c);
      threads := threads[u := threads[u].(awaiter := Some(c))];
      threads := threads[c := threads[c].(state := Blocked, place := InAwait)];
      waker := waker[c := Exit(u)];
      assert View() == QueueAwaiter(s, c, u);
      SwitchToNext();
      return Waiting;
    }

    /**
     * The current thread terminates: its awaiter and the sender it did not answer
     * are woken, in this order. With the last thread of a process go the endpoints
     * that only this process could receive from; the next thread has been chosen by
     * then, and may be inside a call.
     */
    method ExitThread(gone: seq<Eid>)
      requires Valid() && InUserCode() && forall e <- gone :: e in eps
      modifies this
      ensures Valid() && strict == old(strict) && Advanced(old(ready), ready)
      ensures halted <==> old(ready) + Woken(old(threads[current])) == []
      ensures !halted ==> current == (old(ready) + Woken(old(threads[current])))[0]
      ensures !halted ==> forall e <- gone :: e in eps && eps[e] == Ep([], [], true)
      ensures old(current) in threads && threads[old(current)].state.Zombie? && threads[old(current)].sender.None?
      ensures StuckPlus(old(View()), View(), {})
    {
      var c := current;
      ghost var q := ready + Woken(threads[c]);
      Finish(c);
      ghost var v := View();
      SwitchToNext();
      AdvancedAfter(old(ready), q, ready);
      StuckThen(old(View()), v, View(), {}, {});
      if !halted {
        assert ThreadOk(v, None, current);
        DestroyAll(gone, c);
        AdvancedAfter(old(ready), q, ready);
      }
    }

    /** Destroy endpoints one after the other. */
    method DestroyAll(gone: seq<Eid>, ghost c: Tid)
      requires Valid() && Interruptible() && forall e <- gone :: e in eps
      requires c in threads && threads[c].state.Zombie?
      modifies this`threads, this`ready, this`eps, this`waker, this`got
      ensures Valid() && old(ready) <= ready && current !in ready && threads.Keys == old(threads.Keys)
      ensures forall e <- gone :: e in eps && eps[e] == Ep([], [], true)
      ensures threads[c] == old(threads[c]) && StuckPlus(old(View()), View(), {})
    {
      ghost var s := View();
      for i := 0 to |gone|
        invariant Valid() && Interruptible() && old(ready) <= ready && threads.Keys == old(threads.Keys)
        invariant eps.Keys == old(eps.Keys) && forall k :: 0 <= k < i ==> gone[k] in eps && eps[gone[k]] == Ep([], [], true)
        invariant threads[c] == old(threads[c]) && StuckPlus(s, View(), {})
      {
        ghost var v := View();
        assert gone[i] in gone;
        DestroyEndpoint(gone[i]);
        assert v.ready <= ready;
        assert forall k :: 0 <= k < i ==> gone[k] != gone[i] ==> eps[gone[k]] == v.eps[gone[k]];
        StuckThen(s, v, View(), {}, {});
      }
      assert ThreadOk(View(), Some(current), current);
    }

    method Finish(c: Tid)
      requires Valid() && InUserCode() && c == current
      modifies this`threads, this`ready, this`waker
      ensures Inv(View(), None) && Fifo() && Drained() && ready == old(ready) + Woken(old(threads[c]))
      ensures c in threads && c !in ready && threads[c].state.Zombie? && threads[c].sender.None?
      ensures StuckPlus(old(View()), View(), {})
    {
      ghost var s := View();
      TerminateWakes(s, c);
      TerminateKeeps(s, c);
      TerminateStuck(s, c);
      threads := threads[c := threads[c].(state := Zombie)];
      ReadyAwaiter(c);
      AbortSender(c);
      assert View() == Terminate(s, c);
      assert ThreadOk(View(), None, c);
    }

    method ReadyAwaiter(c: Tid)
      requires c in threads && (threads[c].awaiter.Some? ==> threads[c].awaiter.value in threads && threads[c].awaiter.value !in ready)
      modifies this`threads, this`ready, this`waker
      ensures View() == old(WakeAwaiter(View(), c))
    {
      if threads[c].awaiter.Some? {
        var a := threads[c].awaiter.value;
        waker := waker - {a};
        ReadyThread(a);
      }
    }

    method AbortSender(c: Tid)
      requires c in threads
      requires threads[c].sender.Some? ==>
                 var x := threads[c].sender.value; x in threads && x !in ready && x != c
      modifies this`threads, this`ready, this`waker
      ensures View() == old(WakeSender(View(), c))
    {
      if threads[c].sender.Some? {
        var x := threads[c].sender.value;
        AbortMessage(x);
        threads := threads[c := threads[c].(sender := None)];
        assert View() == old(WakeSender(View(), c));
      }
    }

    method NewThread(t: Tid)
      requires Valid() && !halted && t !in threads
      modifies this`threads
      ensures Valid() && threads.Keys == old(threads.Keys) + {t} && threads[t].state.Created?
      ensures StuckPlus(old(View()), View(), {})
    {
      NewThreadKeeps(View(), current, t);
      threads := threads[t := Thr(Created, UserCode, None, None, NoError, 0, 0, 0)];
      HoldersKnown(old(View()), Some(current));
      SameStuck(old(View()), View());
    }

    /** Start a thread that has been created or has terminated. */
    method Start(t: Tid) returns (started: bool)
      requires Valid() && InUserCode() && t in threads
      modifies this`threads, this`ready
      ensures Valid() && Advanced(old(ready), ready)
      ensures started <==> !Unfinished(old(threads[t]))
      ensures if started then ready == old(ready) + [t] else threads == old(threads) && ready == old(ready)
      ensures StuckPlus(old(View()), View(), {})
    {
      if Unfinished(threads[t]) {
        return false;
      }
      ghost var s := View();
      StartThreadKeeps(s, Some(current), t);
      StartThreadStuck(s, Some(current), t);
      threads := threads[t := threads[t].(sender := None, credits := 0)];
      threads := threads[t := threads[t].(awaiter := None, place := UserCode)];
      ReadyThread(t);
      assert View() == StartThread(s, t);
      return true;
    }

    method NewEndpoint(e: Eid)
      requires Valid() && !halted && e !in eps
      modifies this`eps, this`sent, this`got
      ensures Valid() && eps == old(eps)[e := Ep([], [], false)] && StuckPlus(old(View()), View(), {})
    {
      NewEndpointKeeps(View(), current, e);
      eps := eps[e := Ep([], [], false)];
      sent, got := sent[e := []], got[e := []];
      StaysInOrder(old(sent), old(got), old(eps), sent, got, eps, e);
      StaysDrained(old(eps), eps, e);
    }

    /** Wake a thread with an I/O error. */
    method AbortMessage(t: Tid)
      requires t in threads && t !in ready
      modifies this`threads, this`ready, this`waker
      ensures threads == old(threads)[t := old(threads[t]).(state := Ready, errno := EIO)]
      ensures ready == old(ready) + [t] && waker == old(waker) - {t}
    {
      waker := waker - {t};
      threads := threads[t := threads[t].(errno := EIO)];
      ReadyThread(t);
    }

    method AbortFirstSender(e: Eid)
      requires !halted && Inv(View(), Some(current)) && Fifo() && e in eps && eps[e].sendList != []
      modifies this`threads, this`ready, this`eps, this`waker, this`got
      ensures Inv(View(), Some(current)) && Fifo() && ready == old(ready) + [old(eps[e].sendList)[0]]
      ensures OthersSame(old(eps), eps, e) && eps[e] == old(eps[e]).(sendList := old(eps[e].sendList)[1..])
      ensures WokeAlone(old(threads), old(eps[e].sendList)[0], threads) && StuckPlus(old(View()), View(), {})
    {
      ghost var s := View();
      AbortFirstKeeps(s, Some(current), e, true);
      AbortFirstStuck(s, Some(current), e, true);
      DequeuedInOrder(sent, got, eps, e);
      var t := eps[e].sendList[0];
      got := got[e := got[e] + [t]];
      eps := eps[e := eps[e].(sendList := eps[e].sendList[1..])];
      AbortMessage(t);
      assert View() == AbortFirst(s, e, true);
    }

    method AbortFirstReceiver(e: Eid)
      requires !halted && Inv(View(), Some(current)) && Fifo() && e in eps && eps[e].recvList != []
      modifies this`threads, this`ready, this`eps, this`waker
      ensures Inv(View(), Some(current)) && Fifo() && ready == old(ready) + [old(eps[e].recvList)[0]]
      ensures OthersSame(old(eps), eps, e) && eps[e] == old(eps[e]).(recvList := old(eps[e].recvList)[1..])
      ensures WokeAlone(old(threads), old(eps[e].recvList)[0], threads) && StuckPlus(old(View()), View(), {})
    {
      ghost var s := View();
      AbortFirstKeeps(s, Some(current), e, false);
      AbortFirstStuck(s, Some(current), e, false);
      assert OrderAt(sent, got, eps, e);
      var t := eps[e].recvList[0];
      eps := eps[e := eps[e].(recvList := eps[e].recvList[1..])];
      AbortMessage(t);
      assert View() == AbortFirst(s, e, false);
      StaysInOrder(old(sent), old(got), old(eps), sent, got, eps, e);
    }

    /** The current thread is not about to look at an endpoint that it found alive. */
    ghost predicate Interruptible()
      reads this
    {
      !halted && current in threads && !(threads[current].place.InReceive? && threads[current].errno == NoError)
    }

    /** Destroy an endpoint: every thread queued on it is woken with an error, senders first. */
    method DestroyEndpoint(e: Eid)
      requires Valid() && Interruptible() && e in eps
      modifies this`threads, this`ready, this`eps, this`waker, this`got
      ensures Valid() && Interruptible() && OthersSame(old(eps), eps, e) && eps[e] == Ep([], [], true)
      ensures ready == old(ready) + old(eps[e].sendList) + old(eps[e].recvList)
      ensures Aborted(threads, old(eps[e].sendList + eps[e].recvList)) && OnlyBlockedWoken(old(threads), threads)
      ensures StuckPlus(old(View()), View(), {})
    {
      assert ThreadOk(View(), Some(current), current);
      MarkDestroyed(e);
      Drain(e);
      StaysDrained(old(eps), eps, e);
    }

    method Drain(e: Eid)
      requires !halted && Inv(View(), Some(current)) && Fifo() && e in eps
      modifies this`threads, this`ready, this`eps, this`waker, this`got
      ensures Inv(View(), Some(current)) && Fifo()
      ensures OthersSame(old(eps), eps, e) && eps[e] == Ep([], [], old(eps[e].destroyed))
      ensures ready == old(ready) + old(eps[e].sendList) + old(eps[e].recvList)
      ensures Aborted(threads, old(eps[e].sendList + eps[e].recvList)) && OnlyBlockedWoken(old(threads), threads)
      ensures StuckPlus(old(View()), View(), {})
    {
      ghost var s := View();
      DrainSenders(e);
      ghost var v := View();
      DrainReceivers(e);
      StuckThen(s, v, View(), {}, {});
    }

    method MarkDestroyed(e: Eid)
      requires Valid() && Interruptible() && e in eps
      modifies this`eps
      ensures Inv(View(), Some(current)) && Fifo()
      ensures OthersSame(old(eps), eps, e) && eps[e] == old(eps[e]).(destroyed := true)
    {
      assert OrderAt(sent, got, eps, e);
      DestroyKeeps(View(), current, e);
      eps := eps[e := eps[e].(destroyed := true)];
      StaysInOrder(old(sent), old(got), old(eps), sent, got, eps, e);
    }

    method DrainSenders(e: Eid)
      requires !halted && Inv(View(), Some(current)) && Fifo() && e in eps
      modifies this`threads, this`ready, this`eps, this`waker, this`got
      ensures Inv(View(), Some(current)) && Fifo()
      ensures OthersSame(old(eps), eps, e) && eps[e] == old(eps[e]).(sendList := [])
      ensures ready == old(ready) + old(eps[e].sendList)
      ensures Aborted(threads, old(eps[e].sendList)) && OnlyBlockedWoken(old(threads), threads)
      ensures StuckPlus(old(View()), View(), {})
    {
      ghost var s, done := View(), [];
      while eps[e].sendList != []
        invariant Inv(View(), Some(current)) && Fifo()
        invariant Draining(s, View(), e, done, true)
        decreases |eps[e].sendList|
      {
        done := DrainSender(e, s, done);
      }
    }

    method DrainSender(e: Eid, ghost s: Sys, ghost done: seq<Tid>) returns (ghost more: seq<Tid>)
      requires !halted && Inv(View(), Some(current)) && Fifo() && Draining(s, View(), e, done, true) && eps[e].sendList != []
      modifies this`threads, this`ready, this`eps, this`waker, this`got
      ensures Inv(View(), Some(current)) && Fifo() && Draining(s, View(), e, more, true)
      ensures |eps[e].sendList| < old(|eps[e].sendList|)
    {
      ghost var v, x := View(), eps[e].sendList[0];
      QueuedBlocked(v, Some(current), e, x);
      AbortFirstSender(e);
      DrainedMore(s, v, View(), e, done, x, true);
      more := done + [x];
    }

    method DrainReceivers(e: Eid)
      requires !halted && Inv(View(), Some(current)) && Fifo() && e in eps
      modifies this`threads, this`ready, this`eps, this`waker, this`got
      ensures Inv(View(), Some(current)) && Fifo()
      ensures OthersSame(old(eps), eps, e) && eps[e] == old(eps[e]).(recvList := [])
      ensures ready == old(ready) + old(eps[e].recvList)
      ensures Aborted(threads, old(eps[e].recvList)) && OnlyBlockedWoken(old(threads), threads)
      ensures StuckPlus(old(View()), View(), {})
    {
      ghost var s, done := View(), [];
      while eps[e].recvList != []
        invariant Inv(View(), Some(current)) && Fifo()
        invariant Draining(s, View(), e, done, false)
        decreases |eps[e].recvList|
      {
        done := DrainReceiver(e, s, done);
      }
    }

    method DrainReceiver(e: Eid, ghost s: Sys, ghost done: seq<Tid>) returns (ghost more: seq<Tid>)
      requires !halted && Inv(View(), Some(current)) && Fifo() && Draining(s, View(), e, done, false) && eps[e].recvList != []
      modifies this`threads, this`ready, this`eps, this`waker, this`got
      ensures Inv(View(), Some(current)) && Fifo() && Draining(s, View(), e, more, false)
      ensures |eps[e].recvList| < old(|eps[e].recvList|)
    {
      ghost var v, x := View(), eps[e].recvList[0];
      QueuedBlocked(v, Some(current), e, x);
      AbortFirstReceiver(e);
      DrainedMore(s, v, View(), e, done, x, false);
      more := done + [x];
    }

    method Tick()
      requires Valid() && InUserCode()
      modifies this`threads
      ensures Valid()
      ensures threads == old(threads)[current := old(threads[current]).(credits :=
                if old(threads[current].credits) > 0 then old(threads[current].credits) - 1 else old(threads[current].credits))]
      ensures StuckPlus(old(View()), View(), {})
    {
      if threads[current].credits > 0 {
        MessageKeeps(View(), current, threads[current].(credits := threads[current].credits - 1));
        threads := threads[current := threads[current].(credits := threads[current].credits - 1)];
        HoldersKnown(old(View()), Some(current));
        SameStuck(old(View()), View());
      }
    }

    method Yield()
      requires Valid() && InUserCode()
      modifies this`threads
      ensures Valid() && threads == old(threads)[current := old(threads[current]).(credits := 0)]
      ensures StuckPlus(old(View()), View(), {})
    {
      MessageKeeps(View(), current, threads[current].(credits := 0));
      threads := threads[current := threads[current].(credits := 0)];
      HoldersKnown(old(View()), Some(current));
      SameStuck(old(View()), View());
    }

    /** At the end of every trap: a thread that is out of credits gives way to the first ready one. */
    method Reschedule()
      requires Valid() && InUserCode()
      modifies this`threads, this`ready, this`current
      ensures Valid() && !halted && Advanced(old(ready), ready)
      ensures if old(threads[current].credits) <= 0 && old(ready) != []
              then current == old(ready)[0] && ready == old(ready)[1..] + [old(current)]
              else current == old(current) && ready == old(ready)
      ensures StuckPlus(old(View()), View(), {})
    {
      var c := current;
      if threads[c].credits > 0 {
        return;
      }
      ghost var s := View();
      if ready == [] {
        MessageKeeps(s, c, threads[c].(credits := threads[c].credits + BASE_CREDITS));
        threads := threads[c := threads[c].(credits := threads[c].credits + BASE_CREDITS)];
        HoldersKnown(s, Some(c));
        SameStuck(s, View());
        return;
      }
      GiveWayKeeps(s, c);
      GiveWayStuck(s, c);
      NoDupTail(ready);
      assert ThreadOk(s, Some(c), c);
      var to := ready[0];
      ready := ready[1..];
      threads := threads[to := threads[to].(credits := threads[to].credits + BASE_CREDITS)];
      threads := threads[to := threads[to].(state := Running)];
      ReadyThread(c);
      current := to;
      assert View() == GiveWay(s, c);
    }

    /** Receive a message; `valid` says whether the receive buffers can be written when it arrives. */
    method Receive(e: Eid, room: nat, valid: bool) returns (outcome: Outcome)
      requires Valid() && InUserCode() && e in eps && !eps[e].destroyed
      modifies this
      ensures Valid() && Advanced(old(ready), ready)
      ensures old(strict) && old(threads[current].sender).None? && valid ==> strict
      ensures Served(old(View()), e, room, outcome, View())
      ensures outcome.Got? ==> current == old(current) && InUserCode() && threads[current].sender == Some(outcome.from)
      ensures StuckPlus(old(View()), View(), Held(old(threads[current])) + Spoiled(outcome)) && (valid ==> !outcome.BadBuffer?)
    {
      threads := threads[current := threads[current].(errno := NoError)];
      MessageKeeps(old(View()), current, threads[current]);
      HoldersKnown(old(View()), Some(current));
      SameStuck(old(View()), View());
      ghost var v := View();
      outcome := ReceiveNext(e, room, valid);
      ServedBefore(old(View()), v, View(), e, room, outcome);
      StuckThen(old(View()), v, View(), {}, Held(old(threads[current])) + Spoiled(outcome));
    }

    /**
     * Take queued senders in order until one's message fits, waking those whose
     * message does not; wait if there is none.
     */
    method ReceiveNext(e: Eid, room: nat, valid: bool) returns (outcome: Outcome)
      requires Valid() && InUserCode() && e in eps && !eps[e].destroyed && threads[current].errno == NoError
      modifies this
      ensures Valid() && Advanced(old(ready), ready) && !outcome.Failed?
      ensures old(strict) && old(threads[current].sender).None? && valid ==> strict
      ensures Served(old(View()), e, room, outcome, View())
      ensures outcome.Got? ==> current == old(current) && InUserCode() && threads[current].sender == Some(outcome.from)
      ensures StuckPlus(old(View()), View(), Held(old(threads[current])) + Spoiled(outcome)) && (valid ==> !outcome.BadBuffer?)
    {
      ghost var s, me, c := View(), current, threads[current];
      var found, x := SkipTooBig(e, room);
      ghost var v := View();
      assert ThreadOk(v, Some(me), me);
      if !found {
        WaitToReceive(e, room);
        AdvancedAfter(s.ready, v.ready, ready);
        StuckThen(s, v, View(), if s.eps[e].sendList == [] then {} else Held(c), Held(v.threads[me]));
        return Waits;
      }
      if !valid {
        Drop();
        ServedSame(s, v, View(), e, room, x, me);
        StuckThen(s, v, View(), Held(c), {x});
        return BadBuffer(x);
      }
      return Got(x);
    }

    /** Wake senders whose message is too big until one fits, which is taken, or none is left. */
    method SkipTooBig(e: Eid, room: nat) returns (found: bool, x: Tid)
      requires Valid() && InUserCode() && e in eps && !eps[e].destroyed
      modifies this
      ensures Valid() && InUserCode() && current == old(current) && old(ready) <= ready && e in eps && !eps[e].destroyed
      ensures threads[current].errno == old(threads[current].errno)
      ensures old(threads[current].sender).None? ==> strict == old(strict) && (!found ==> threads[current].sender.None?)
      ensures found ==> threads[current].sender == Some(x) && exists j :: ServedAt(old(View()), e, room, x, j, View())
      ensures !found ==> eps[e].sendList == [] && AllTooBig(old(View()), e, room) && ready == old(ready) + old(eps[e].sendList)
      ensures !found ==> threads[current].sender == if old(eps[e].sendList) == [] then old(threads[current].sender) else None
      ensures StuckPlus(old(View()), View(), if old(eps[e].sendList) == [] then {} else Held(old(threads[current])))
    {
      ghost var s := View();
      ghost var done: seq<Tid> := [];
      x := current;
      assert ThreadOk(s, Some(current), current);
      SkippedNone(s, current, e, room);
      while eps[e].sendList != []
        invariant Valid() && InUserCode() && current == old(current) && e in eps && !eps[e].destroyed
        invariant Skipped(s, current, e, room, done, View())
        invariant StuckPlus(s, View(), if done == [] then {} else Held(s.threads[current]))
        decreases |eps[e].sendList|
      {
        ghost var v := View();
        var fits;
        x, fits := TryFirst(e, room);
        SkippedOne(s, current, e, room, done, v, View(), x, fits);
        StuckThen(s, v, View(), if done == [] then {} else Held(s.threads[current]), Held(v.threads[current]));
        if fits {
          return true, x;
        }
        done := done + [x];
      }
      SkippedAll(s, current, e, room, done, View());
      return false, x;
    }

    /** The current thread comes back from the call it was blocked in; `spoiled` is whom a bad buffer leaves without an answer. */
    method Resume(valid: bool) returns (ghost spoiled: set<Tid>)
      requires Valid() && !halted && !threads[current].place.UserCode?
      modifies this
      ensures Valid() && Advanced(old(ready), ready) && (old(strict) && valid ==> strict)
      ensures StuckPlus(old(View()), View(), spoiled) && (valid ==> spoiled == {})
    {
      spoiled := {};
      match threads[current].place {
        case InSend => var errno := ResumeSend();
        case InAwait => ResumeAwait();
        case InReceive(_, _) =>
          var outcome := ResumeReceive(valid);
          spoiled := Spoiled(outcome);
      }
    }

    /**
     * What the current thread, or the clock, makes the kernel do; a request that is
     * refused changes nothing. `spoiled` is whom it leaves without an answer.
     */
    method Perform(step: Step, valid: bool) returns (ghost spoiled: set<Tid>)
      requires Valid() && InUserCode()
      modifies this
      ensures Valid() && Advanced(old(ready), ready)
      ensures old(strict) && valid && (step.ReceiveFrom? ==> old(threads[current].sender).None?) ==> strict
      ensures StuckPlus(old(View()), View(), spoiled)
      ensures valid && (step.ReceiveFrom? ==> old(threads[current].sender).None?) ==> spoiled == {}
    {
      spoiled := {};
      match step {
        case SendTo(e, size, room) => if e in eps && !eps[e].destroyed { Send(e, size, room); }
        case ReceiveFrom(e, room) =>
          if e in eps && !eps[e].destroyed {
            ghost var c := threads[current];
            var outcome := Receive(e, room, valid);
            spoiled := Held(c) + Spoiled(outcome);
          }
        case AnswerWith(size) => var done := Reply(size, valid);
        case AnswerWithError => var done := ReplyError();
        case AwaitThread(t) => if t in threads { var status := Await(t); }
        case Terminates(gone) => if forall e <- gone :: e in eps { ExitThread(gone); }
        case Create(t) => if t !in threads { NewThread(t); }
        case Begin(t) => if t in threads { var started := Start(t); }
        case Open(e) => if e !in eps { NewEndpoint(e); }
        case Close(e) => if e in eps { DestroyEndpoint(e); }
        case Clock => Tick();
        case GiveUp => Yield();
        case EndOfTrap => Reschedule();
      }
    }

    /** One item of a script: the current thread comes back from a call if it was in one, and does something. */
    method Turn(step: Step, valid: bool) returns (misuses: nat, ghost between: seq<Tid>, ghost spoiled: set<Tid>)
      requires Valid()
      modifies this
      ensures Valid() && Advanced(old(ready), between) && Advanced(between, ready) && NoDup(between)
      ensures old(strict) && misuses == 0 ==> strict
      ensures StuckPlus(old(View()), View(), spoiled) && (misuses == 0 ==> spoiled == {})
    {
      ghost var s, back := View(), {};
      misuses := if valid then 0 else 1;
      if !halted && !threads[current].place.UserCode? {
        back := Resume(valid);
      }
      ghost var v, more := View(), {};
      between := ready;
      if !halted && threads[current].place.UserCode? {
        if step.ReceiveFrom? && threads[current].sender.Some? {
          misuses := misuses + 1;
        }
        more := Perform(step, valid);
      }
      spoiled := back + more;
      StuckThen(s, v, View(), back, more);
    }

    /**
     * Any run of the kernel keeps its invariant. As long as no thread asks for
     * another message before it has answered the last one and every user buffer
     * is valid, every blocked thread keeps a waker. `queues` is what the ready
     * queue went through: a thread that stays on it never moves back. Whoever is
     * stuck at the end is who was stuck before, or was spoiled by a misuse; and
     * whoever is lost stays lost.
     */
    method Run(script: seq<(Step, bool)>) returns (misuses: nat, ghost queues: seq<seq<Tid>>, ghost spoiled: set<Tid>)
      requires Valid()
      modifies this
      ensures Valid() && (old(strict) && misuses == 0 ==> strict)
      ensures queues != [] && queues[0] == old(ready) && queues[|queues| - 1] == ready && Marching(queues)
      ensures forall t :: Stuck(View(), t) <==> old(Stuck(View(), t)) || t in spoiled
      ensures misuses == 0 ==> spoiled == {}
      ensures forall t :: old(Lost(View(), t)) ==> Lost(View(), t)
    {
      misuses, spoiled := 0, {};
      queues := [ready];
      ghost var s, cur := View(), if halted then None else Some(current);
      for i := 0 to |script|
        invariant Valid() && (old(strict) && misuses == 0 ==> strict)
        invariant queues != [] && queues[0] == old(ready) && queues[|queues| - 1] == ready && Marching(queues)
        invariant StuckPlus(s, View(), spoiled) && (misuses == 0 ==> spoiled == {})
      {
        ghost var v := View();
        var n;
        ghost var between, more;
        n, between, more := Turn(script[i].0, script[i].1);
        misuses := misuses + n;
        MarchOn(queues, between);
        MarchOn(queues + [between], ready);
        queues := queues + [between] + [ready];
        StuckThen(s, v, View(), spoiled, more);
        spoiled := spoiled + more;
      }
      StuckOverall(s, cur, View(), if halted then None else Some(current), spoiled);
    }

    /** Take the first queued sender; if its message is too big, wake it with an error. */
    method TryFirst(e: Eid, room: nat) returns (x: Tid, fits: bool)
      requires Valid() && InUserCode() && e in eps && eps[e].sendList != []
      modifies this
      ensures Valid() && InUserCode() && current == old(current)
      ensures x == old(eps[e].sendList)[0] && x in old(threads) && x != current && fits == (old(threads[x].size) <= room)
      ensures eps == old(eps)[e := old(eps[e]).(sendList := old(eps[e].sendList)[1..])]
      ensures strict == (old(strict) && old(threads[current].sender).None?)
      ensures StuckPlus(old(View()), View(), Held(old(threads[current])))
      ensures fits ==>
                && ready == old(ready) && threads == old(threads)[current := old(threads[current]).(sender := Some(x))]
      ensures !fits ==>
                && ready == old(ready) + [x]
                && threads == old(threads)[current := old(threads[current]).(sender := None)]
                                         [x := old(threads[x]).(errno := E2BIG, state := Ready)]
    {
      ghost var s := View();
      TakeSenderStuck(s, current, e);
      x := TakeFirst(e);
      ghost var v := View();
      fits := threads[x].size <= room;
      if !fits {
        RejectSenderStuck(v, current, E2BIG);
        Reject(E2BIG);
        StuckThen(s, v, View(), Held(s.threads[current]), {});
      }
    }
  }

  datatype Step =
    | SendTo(e: Eid, size: nat, room: nat)
    | ReceiveFrom(e: Eid, room: nat)
    | AnswerWith(size: nat)
    | AnswerWithError
    | AwaitThread(t: Tid)
    | Terminates(gone: seq<Eid>)
    | Create(t: Tid)
    | Begin(t: Tid)
    | Open(e: Eid)
    | Close(e: Eid)
    | Clock
    | GiveUp
    | EndOfTrap

  /** In a strict state, whoever is blocked is where exactly one other party will find it. */
  lemma EveryoneHasAWaker(s: Sys, cur: Option<Tid>, t: Tid)
    requires Inv(s, cur) && s.strict && t in s.threads && s.threads[t].state.Blocked?
    ensures t in s.waker && s.waker[t] != Nobody && WakerHolds(s, t) && t !in s.ready
    ensures forall e <- s.eps :: t in s.eps[e].sendList ==> s.waker[t] == SendQueue(e)
    ensures forall e <- s.eps :: t in s.eps[e].recvList ==> s.waker[t] == RecvQueue(e)
    ensures forall r <- s.threads :: s.threads[r].sender == Some(t) ==> s.waker[t] == Holder(r)
    ensures forall u <- s.threads :: Unfinished(s.threads[u]) && s.threads[u].awaiter == Some(t) ==> s.waker[t] == Exit(u)
  {
    assert ThreadOk(s, cur, t);
    forall e <- s.eps ensures EndpointOk(s, e) {}
    forall r <- s.threads ensures ThreadOk(s, cur, r) {}
    assert forall e <- s.eps :: t in s.eps[e].sendList ==> Awaits(s, t, SendQueue(e));
    assert forall e <- s.eps :: t in s.eps[e].recvList ==> Awaits(s, t, RecvQueue(e));
  }

  /** Taking a sender loses exactly the one whose message the receiver had not answered. */
  lemma TakenAgainIff(s: Sys, c: Tid, e: Eid, t: Tid)
    requires Inv(s, Some(c)) && s.threads[c].place.UserCode? && e in s.eps && s.eps[e].sendList != []
    ensures Lost(TakeSender(s, c, e), t) <==> Lost(s, t) || s.threads[c].sender == Some(t)
  {
    TakeSenderKeeps(s, c, e);
    LostIff(s, Some(c), t);
    LostIff(TakeSender(s, c, e), Some(c), t);
    assert EndpointOk(s, e) && Awaits(s, s.eps[e].sendList[0], SendQueue(e));
    assert ThreadOk(s, Some(c), c);
  }

  /** So does a receiver that gives up because its buffers turn out to be bad, or because the endpoint is gone. */
  lemma DroppedIff(s: Sys, c: Tid, t: Tid)
    requires Inv(s, Some(c)) && !s.threads[c].place.InReceive?
    ensures Lost(DropSender(s, c), t) <==> Lost(s, t) || s.threads[c].sender == Some(t)
  {
    DropSenderKeeps(s, c);
    LostIff(s, Some(c), t);
    LostIff(DropSender(s, c), Some(c), t);
  }

  /** A receiver that waits although it has not answered loses the sender when it is handed another message. */
  lemma HandedOverIff(s: Sys, c: Tid, e: Eid, t: Tid)
    requires Inv(s, Some(c)) && e in s.eps && s.eps[e].recvList != [] && !s.eps[e].destroyed
    requires s.threads[c].place.UserCode?
    ensures var r := s.eps[e].recvList[0];
            r in s.threads && (Lost(HandOver(s, c, e), t) <==> Lost(s, t) || s.threads[r].sender == Some(t))
  {
    var r := s.eps[e].recvList[0];
    HandOverKeeps(s, c, e);
    LostIff(s, Some(c), t);
    LostIff(HandOver(s, c, e), Some(r), t);
    assert EndpointOk(s, e) && Awaits(s, r, RecvQueue(e));
    assert ThreadOk(s, Some(c), c) && ThreadOk(s, Some(c), r);
  }

  /** Waiting for a message makes exactly that sender stuck. */
  lemma ReceivedAgainIff(s: Sys, c: Tid, e: Eid, room: nat, t: Tid)
    requires Inv(s, Some(c)) && s.threads[c].place.UserCode? && s.threads[c].errno == NoError
    requires e in s.eps && s.eps[e].sendList == []
    ensures Stuck(QueueReceiver(s, c, e, room), t) <==> Stuck(s, t) || s.threads[c].sender == Some(t)
  {
    QueueReceiverKeeps(s, c, e, room);
    QueueReceiverStuck(s, c, e, room);
    LostIff(s, Some(c), t);
    LostIff(QueueReceiver(s, c, e, room), None, t);
  }

  lemma StuckOverall(s: Sys, cur: Option<Tid>, u: Sys, cur1: Option<Tid>, spoiled: set<Tid>)
    requires Inv(s, cur) && Inv(u, cur1) && StuckPlus(s, u, spoiled)
    ensures forall t :: Stuck(u, t) <==> Stuck(s, t) || t in spoiled
    ensures forall t :: Lost(s, t) ==> Lost(u, t)
  {
    forall t ensures (Stuck(u, t) <==> Stuck(s, t) || t in spoiled) && (Lost(s, t) ==> Lost(u, t)) {
      LostIff(s, cur, t);
      LostIff(u, cur1, t);
      assert StuckBy(u, t) <==> StuckBy(s, t) || t in spoiled;
      assert Awaits(u, t, Nobody) || !Awaits(u, t, Nobody);
    }
  }

  /** Whoever was stuck behind a receive that failed is lost. */
  lemma FailedStuck(s: Sys, c: Tid)
    requires Inv(s, Some(c)) && s.threads[c].place.InReceive? && s.threads[c].errno != NoError
    ensures StuckPlus(s, DropSender(WithThread(s, c, s.threads[c].(place := UserCode)), c), {})
  {
    assert ThreadOk(s, Some(c), c);
    var u := DropSender(WithThread(s, c, s.threads[c].(place := UserCode)), c);
    forall t ensures StuckBy(u, t) <==> StuckBy(s, t) {
      if t in s.threads { assert ThreadOk(s, Some(c), t); }
    }
  }

  /** Only blocked threads were woken. */
  ghost predicate OnlyBlockedWoken(a: map<Tid, Thr>, b: map<Tid, Thr>) {
    a.Keys == b.Keys && forall t <- a :: !a[t].state.Blocked? ==> b[t] == a[t]
  }

  lemma WokenMore(a: map<Tid, Thr>, v: map<Tid, Thr>, b: map<Tid, Thr>, t: Tid)
    requires OnlyBlockedWoken(a, v) && WokeAlone(v, t, b) && v[t].state.Blocked?
    ensures OnlyBlockedWoken(a, b)
  {}

  lemma QueuedBlocked(s: Sys, cur: Option<Tid>, e: Eid, t: Tid)
    requires Inv(s, cur) && e in s.eps && (t in s.eps[e].sendList || t in s.eps[e].recvList)
    ensures t in s.threads && s.threads[t].state.Blocked?
  {
    assert EndpointOk(s, e);
    assert Awaits(s, t, SendQueue(e)) || Awaits(s, t, RecvQueue(e));
    assert ThreadOk(s, cur, t);
  }

  // ---- Order over runs

  /** Each of these ready queues follows from the one before. */
  ghost predicate Marching(queues: seq<seq<Tid>>) {
    && (forall i :: 0 <= i < |queues| ==> NoDup(queues[i]))
    && (forall i :: 0 < i < |queues| ==> Advanced(queues[i - 1], queues[i]))
  }

  lemma MarchOn(queues: seq<seq<Tid>>, q: seq<Tid>)
    requires queues != [] && Marching(queues) && NoDup(q) && Advanced(queues[|queues| - 1], q)
    ensures Marching(queues + [q])
  {}

  /** A thread that is on all of them from the i-th to the j-th is no further back at the end. */
  lemma {:induction false} NeverMovesBackOverRuns(queues: seq<seq<Tid>>, i: nat, j: nat, t: Tid, a: nat, b: nat)
    requires Marching(queues) && i <= j < |queues| && forall k :: i <= k <= j ==> t in queues[k]
    requires a < |queues[i]| && queues[i][a] == t && b < |queues[j]| && queues[j][b] == t
    ensures b <= a
    decreases j - i
  {
    if i < j {
      var m :| 0 <= m < |queues[i + 1]| && queues[i + 1][m] == t;
      NeverMovesBack(queues[i], queues[i + 1], a, m);
      NeverMovesBackOverRuns(queues, i + 1, j, t, m, b);
    }
  }

  lemma NobodyLost(s: Sys, cur: Option<Tid>)
    requires Inv(s, cur) && s.strict
    ensures forall t <- s.waker :: s.waker[t] != Nobody
  {
    forall t <- s.waker ensures s.waker[t] != Nobody {
      assert ThreadOk(s, cur, t);
    }
  }

  ghost predicate SameSizes(s: Sys, u: Sys) {
    s.threads.Keys == u.threads.Keys && forall t <- s.threads :: s.threads[t].size == u.threads[t].size
  }

  ghost predicate AllRejected(s: Sys, u: Sys, q: seq<Tid>, room: nat) {
    forall t <- q :: RejectedBy(s, u, t, room)
  }

  /** Taking a sender does not undo the rejections before. */
  lemma RejectedSame(s: Sys, v: Sys, u: Sys, q: seq<Tid>, room: nat, c: Tid)
    requires AllRejected(s, v, q, room) && c in v.threads && v.threads[c].state.Running? && c in u.threads
    requires u.threads == v.threads[c := u.threads[c]]
    ensures AllRejected(s, u, q, room)
  {
    forall t <- q ensures RejectedBy(s, u, t, room) { assert RejectedBy(s, v, t, room); }
  }

  /** Rejecting one more sender. */
  lemma RejectedMore(s: Sys, v: Sys, u: Sys, q: seq<Tid>, room: nat, c: Tid, x: Tid)
    requires AllRejected(s, v, q, room) && SameSizes(s, v) && c in v.threads && v.threads[c].state.Running?
    requires x in v.threads && x != c && v.threads[x].size > room
    requires u.threads == v.threads[c := v.threads[c].(sender := None)][x := v.threads[x].(errno := E2BIG, state := Ready)]
    ensures AllRejected(s, u, q + [x], room) && SameSizes(s, u)
  {
    forall t <- q + [x] ensures RejectedBy(s, u, t, room) {
      assert t == x || RejectedBy(s, v, t, room);
    }
  }

  /** The current thread c has woken the senders in `done`, the first of the queue, whose messages did not fit. */
  ghost predicate Skipped(s: Sys, c: Tid, e: Eid, room: nat, done: seq<Tid>, u: Sys) {
    && e in s.eps && e in u.eps && c in s.threads && c in u.threads && u.threads[c].state.Running?
    && s.eps[e].sendList == done + u.eps[e].sendList && u.ready == s.ready + done
    && SameSizes(s, u) && AllRejected(s, u, done, room)
    && u.threads[c].errno == s.threads[c].errno
    && (s.threads[c].sender.None? ==> u.strict == s.strict)
    && u.threads[c].sender == (if done == [] then s.threads[c].sender else None)
  }

  lemma SkippedNone(s: Sys, c: Tid, e: Eid, room: nat)
    requires e in s.eps && c in s.threads && s.threads[c].state.Running?
    ensures Skipped(s, c, e, room, [], s)
  {}

  lemma SkippedAll(s: Sys, c: Tid, e: Eid, room: nat, done: seq<Tid>, u: Sys)
    requires Skipped(s, c, e, room, done, u) && u.eps[e].sendList == []
    ensures done == s.eps[e].sendList && AllTooBig(s, e, room)
  {
    assert forall t <- done :: RejectedBy(s, u, t, room);
  }

  lemma SkippedOne(s: Sys, c: Tid, e: Eid, room: nat, done: seq<Tid>, v: Sys, u: Sys, x: Tid, fits: bool)
    requires Skipped(s, c, e, room, done, v) && v.eps[e].sendList != [] && x == v.eps[e].sendList[0]
    requires x in v.threads && x != c && fits == (v.threads[x].size <= room)
    requires u.eps == v.eps[e := v.eps[e].(sendList := v.eps[e].sendList[1..])]
    requires u.strict == (v.strict && v.threads[c].sender.None?)
    requires fits ==> u.ready == v.ready && u.threads == v.threads[c := v.threads[c].(sender := Some(x))]
    requires !fits ==>
      && u.ready == v.ready + [x]
      && u.threads == v.threads[c := v.threads[c].(sender := None)][x := v.threads[x].(errno := E2BIG, state := Ready)]
    ensures fits ==> exists j :: ServedAt(s, e, room, x, j, u)
    ensures !fits ==> Skipped(s, c, e, room, done + [x], u)
  {
    Shift(done, v.eps[e].sendList);
    if fits {
      RejectedSame(s, v, u, done, room, c);
      ServedHere(s, u, e, room, done, x);
    } else {
      RejectedMore(s, v, u, done, room, c, x);
    }
  }

  lemma ServedHere(s: Sys, u: Sys, e: Eid, room: nat, done: seq<Tid>, x: Tid)
    requires e in s.eps && done + [x] <= s.eps[e].sendList && AllRejected(s, u, done, room)
    requires x in s.threads && s.threads[x].size <= room && u.ready == s.ready + done
    ensures exists j :: ServedAt(s, e, room, x, j, u)
  {
    assert s.eps[e].sendList[|done|] == x && s.eps[e].sendList[..|done|] == done;
    assert forall i :: 0 <= i < |done| ==> s.eps[e].sendList[i] == done[i] && RejectedBy(s, u, done[i], room);
    assert ServedAt(s, e, room, x, |done|, u);
  }

  lemma ServedSame(s: Sys, v: Sys, u: Sys, e: Eid, room: nat, x: Tid, c: Tid)
    requires exists j :: ServedAt(s, e, room, x, j, v)
    requires c in v.threads && v.threads[c].state.Running? && c in u.threads
    requires u.threads == v.threads[c := u.threads[c]] && u.ready == v.ready
    ensures exists j :: ServedAt(s, e, room, x, j, u)
  {
    var j :| ServedAt(s, e, room, x, j, v);
    forall i | 0 <= i < j ensures RejectedBy(s, u, s.eps[e].sendList[i], room) {
      assert RejectedBy(s, v, s.eps[e].sendList[i], room);
    }
    assert ServedAt(s, e, room, x, j, u);
  }

  lemma AdvancedAfter(q: seq<Tid>, r: seq<Tid>, u: seq<Tid>)
    requires q <= r && Advanced(r, u)
    ensures Advanced(q, u)
  {
    if !(r <= u) && q != [] {
      assert q[1..] <= r[1..] && q[0] == r[0];
    } else if q == [] {
      assert q <= u;
    }
  }

  /** The sender c held is ready, with an error; c holds none. */
  ghost predicate WokeSender(s: Sys, c: Tid, errno: Errno, u: Sys) {
    && c in s.threads && s.threads[c].sender.Some? && s.threads[c].sender.value in s.threads
    && u == RejectSender(s, c, errno)
  }

  /** How a receive ended. */
  datatype Outcome = Got(from: Tid) | Waits | BadBuffer(from: Tid) | Failed(errno: Errno)

  /** Whom a receive leaves without an answer because of its buffers. */
  function Spoiled(outcome: Outcome): set<Tid> {
    match outcome
    case BadBuffer(x) => {x}
    case _ => {}
  }

  /**
   * The j-th sender, x, is the first in the queue whose message fits. Those before
   * it, and nobody else, have been woken, with the too-big error.
   */
  ghost predicate ServedAt(s: Sys, e: Eid, room: nat, x: Tid, j: int, u: Sys) {
    && e in s.eps && 0 <= j < |s.eps[e].sendList| && s.eps[e].sendList[j] == x
    && x in s.threads && s.threads[x].size <= room
    && u.ready == s.ready + s.eps[e].sendList[..j]
    && forall i :: 0 <= i < j ==> RejectedBy(s, u, s.eps[e].sendList[i], room)
  }

  ghost predicate AllTooBig(s: Sys, e: Eid, room: nat) {
    e in s.eps && forall t <- s.eps[e].sendList :: t in s.threads && s.threads[t].size > room
  }

  /** Whoever is taken is the first that fits; a thread waits only if nobody does. */
  ghost predicate Served(s: Sys, e: Eid, room: nat, outcome: Outcome, u: Sys) {
    match outcome
    case Got(x) => exists j :: ServedAt(s, e, room, x, j, u)
    case BadBuffer(x) => exists j :: ServedAt(s, e, room, x, j, u)
    case Waits => AllTooBig(s, e, room) && Advanced(s.ready + s.eps[e].sendList, u.ready)
    case Failed(_) => true
  }

  lemma ServedBefore(s: Sys, v: Sys, u: Sys, e: Eid, room: nat, outcome: Outcome)
    requires SameSizes(s, v) && s.eps == v.eps && s.ready == v.ready && Served(v, e, room, outcome, u)
    ensures Served(s, e, room, outcome, u)
  {
    if outcome.Got? || outcome.BadBuffer? {
      var j :| ServedAt(v, e, room, outcome.from, j, u);
      forall i | 0 <= i < j ensures RejectedBy(s, u, s.eps[e].sendList[i], room) {
        assert RejectedBy(v, u, v.eps[e].sendList[i], room);
      }
      assert ServedAt(s, e, room, outcome.from, j, u);
    }
  }

  ghost predicate RejectedBy(s: Sys, u: Sys, t: Tid, room: nat) {
    && t in s.threads && s.threads[t].size > room
    && t in u.threads && u.threads[t].errno == E2BIG && u.threads[t].state.Ready?
  }

  datatype AwaitStatus = Deadlock | NoSuchThread | AlreadyDone | Waiting

  lemma SizeKeeps(s: Sys, c: Tid, x: Tid, size: nat)
    requires Inv(s, Some(c)) && x in s.threads
    ensures Inv(WithThread(s, x, s.threads[x].(size := size)), Some(c))
  {
    var u := WithThread(s, x, s.threads[x].(size := size));
    forall t | t in u.threads ensures ThreadOk(u, Some(c), t) { assert ThreadOk(s, Some(c), t); }
    forall f | f in u.eps ensures EndpointOk(u, f) { assert EndpointOk(s, f); }
  }

  lemma AwaitDoneKeeps(s: Sys, c: Tid, x: Tid)
    requires Inv(s, Some(c)) && x in s.threads && !Unfinished(s.threads[x])
    ensures Inv(WithThread(s, x, s.threads[x].(awaiter := Some(c))), Some(c))
  {
    var u := WithThread(s, x, s.threads[x].(awaiter := Some(c)));
    forall t | t in u.threads ensures ThreadOk(u, Some(c), t) { assert ThreadOk(s, Some(c), t); }
    forall f | f in u.eps ensures EndpointOk(u, f) { assert EndpointOk(s, f); }
  }

  lemma NewThreadKeeps(s: Sys, c: Tid, x: Tid)
    requires Inv(s, Some(c)) && x !in s.threads
    ensures Inv(WithThread(s, x, Thr(Created, UserCode, None, None, NoError, 0, 0, 0)), Some(c))
  {
    var u := WithThread(s, x, Thr(Created, UserCode, None, None, NoError, 0, 0, 0));
    forall t | t in u.threads ensures ThreadOk(u, Some(c), t) { assert t in s.threads ==> ThreadOk(s, Some(c), t); }
    forall f | f in u.eps ensures EndpointOk(u, f) { assert EndpointOk(s, f); }
  }

  lemma NewEndpointKeeps(s: Sys, c: Tid, e: Eid)
    requires Inv(s, Some(c)) && e !in s.eps
    ensures Inv(s.(eps := s.eps[e := Ep([], [], false)]), Some(c))
  {
    var u := s.(eps := s.eps[e := Ep([], [], false)]);
    forall t | t in u.threads ensures ThreadOk(u, Some(c), t) { assert ThreadOk(s, Some(c), t); }
    forall f | f in u.eps ensures EndpointOk(u, f) { assert f in s.eps ==> EndpointOk(s, f); }
  }

  lemma DestroyKeeps(s: Sys, c: Tid, e: Eid)
    requires Inv(s, Some(c)) && e in s.eps && !(s.threads[c].place.InReceive? && s.threads[c].errno == NoError)
    ensures Inv(s.(eps := s.eps[e := s.eps[e].(destroyed := true)]), Some(c))
  {
    var u := s.(eps := s.eps[e := s.eps[e].(destroyed := true)]);
    forall t | t in u.threads ensures ThreadOk(u, Some(c), t) { assert ThreadOk(s, Some(c), t); }
    forall f | f in u.eps ensures EndpointOk(u, f) { assert EndpointOk(s, f); }
  }

  /** A thread that runs again is no longer inside its call. */
  lemma ResumeKeeps(s: Sys, c: Tid)
    requires Inv(s, Some(c))
    ensures Inv(WithThread(s, c, s.threads[c].(place := UserCode)), Some(c))
  {
    var u := WithThread(s, c, s.threads[c].(place := UserCode));
    assert ThreadOk(s, Some(c), c);
    forall t | t in u.threads ensures ThreadOk(u, Some(c), t) { assert ThreadOk(s, Some(c), t); }
    forall f | f in u.eps ensures EndpointOk(u, f) { assert EndpointOk(s, f); }
  }

  /** Message fields of the current thread do not matter to the queues. */
  lemma MessageKeeps(s: Sys, c: Tid, th: Thr)
    requires Inv(s, Some(c)) && s.threads[c].place.UserCode?
    requires th == s.threads[c].(errno := th.errno, size := th.size, room := th.room, credits := th.credits)
    ensures Inv(WithThread(s, c, th), Some(c))
  {
    var u := WithThread(s, c, th);
    assert ThreadOk(s, Some(c), c);
    forall t | t in u.threads ensures ThreadOk(u, Some(c), t) { assert ThreadOk(s, Some(c), t); }
    forall f | f in u.eps ensures EndpointOk(u, f) { assert EndpointOk(s, f); }
  }

  /** Who is stuck does not depend on anything but wakers, places, states and errors. */
  lemma SameStuck(s: Sys, u: Sys)
    requires u.waker == s.waker && s.threads.Keys <= u.threads.Keys
    requires forall t <- s.threads :: Deaf(u.threads[t]) == Deaf(s.threads[t])
    requires s.waker.Keys <= s.threads.Keys && forall t <- s.waker :: s.waker[t].Holder? ==> s.waker[t].r in s.threads
    ensures StuckPlus(s, u, {})
  {}

  lemma HoldersKnown(s: Sys, cur: Option<Tid>)
    requires Inv(s, cur)
    ensures s.waker.Keys <= s.threads.Keys && forall t <- s.waker :: s.waker[t].Holder? ==> s.waker[t].r in s.threads
  {
    forall t <- s.waker | s.waker[t].Holder? ensures s.waker[t].r in s.threads { assert ThreadOk(s, cur, t); }
  }
}
