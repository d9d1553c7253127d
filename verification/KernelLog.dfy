/**
 * The kernel log: a ring of bytes holding variable-length events, with a tail
 * that is pushed ahead of the writer and any number of independent readers.
 * Every state is tied to the unbounded log of all events ever written.
 */
module KernelLog {

  newtype byte = x: int | 0 <= x < 256

  const RING_SIZE: nat := 65536
  const MAX_LENGTH: nat := 480
  const HEADER: nat := 4
  const REDZONE: nat := MAX_LENGTH + 2 * HEADER

  datatype Event = Event(level: byte, facility: byte, text: seq<byte>)

  /** Bytes an event with a message of n bytes takes, header and padding included. */
  function Span(n: nat): nat {
    HEADER + (n + 3) / 4 * 4
  }

  /** The 16-bit length in the event header at p; zero is a terminator. */
  function LengthAt(ring: seq<byte>, p: nat): nat
    requires p + HEADER <= |ring|
  {
    ring[p] as int + 256 * (ring[p + 1] as int)
  }

  /** The event a reader is handed when its pointer is p. */
  function EventAt(ring: seq<byte>, p: nat): Event
    requires p + HEADER <= |ring|
    requires p + HEADER + LengthAt(ring, p) <= |ring|
  {
    Event(ring[p + 2], ring[p + 3], ring[p + HEADER..p + HEADER + LengthAt(ring, p)])
  }

  /** The bytes of event e, intact, at position p. */
  ghost predicate Stored(ring: seq<byte>, p: nat, e: Event) {
    && p + Span(|e.text|) <= |ring|
    && LengthAt(ring, p) == |e.text|
    && EventAt(ring, p) == e
  }

  /** The producer side of the ring. */
  datatype Core = Core(ring: seq<byte>, writePtr: nat, tailPtr: nat, writeId: nat, tailId: nat)

  /**
   * What the ring stands for: every event ever logged, the position each one was
   * written at, and the id of the first event written since the last wrap.
   */
  datatype Trace = Trace(log: seq<Event>, at: seq<nat>, lap: nat)

  ghost predicate Sized(c: Core, t: Trace) {
    && |c.ring| == RING_SIZE
    && |t.log| == |t.at| == c.writeId
    && c.tailId <= c.writeId && t.lap <= c.writeId
    && (c.writeId > 0 ==> c.tailId < c.writeId)
    && c.writePtr + HEADER <= RING_SIZE
    && (c.writeId == 0 ==> c.writePtr == 0)
    && (if t.lap < c.writeId then t.at[t.lap] else c.writePtr) == 0
    && (c.writePtr > 0 ==> c.writePtr >= HEADER && 1 <= LengthAt(c.ring, 0) <= MAX_LENGTH)
  }

  /** Position of event i, or of the next event to be written. */
  ghost function Pos(c: Core, t: Trace, i: nat): nat
    requires Sized(c, t) && i <= c.writeId
  {
    if i < c.writeId then t.at[i] else c.writePtr
  }

  ghost function End(t: Trace, i: nat): nat
    requires |t.log| == |t.at| && i < |t.at|
  {
    t.at[i] + Span(|t.log[i].text|)
  }

  /** After event i comes event i + 1, at once or through a terminator. */
  ghost predicate Linked(c: Core, t: Trace, i: nat)
    requires Sized(c, t) && i < c.writeId
  {
    if i + 1 == t.lap then
      && End(t, i) + HEADER <= RING_SIZE < End(t, i) + REDZONE
      && LengthAt(c.ring, End(t, i)) == 0
      && Pos(c, t, i + 1) == 0
    else
      Pos(c, t, i + 1) == End(t, i)
  }

  /** Events of the previous lap lie above the tail, those of this lap below the writer. */
  ghost predicate Placed(c: Core, t: Trace, i: nat)
    requires Sized(c, t) && i < c.writeId
  {
    if i < t.lap then c.tailPtr <= t.at[i] else End(t, i) <= c.writePtr
  }

  /** Event i is in the ring, whole and where it should be. */
  ghost predicate Held(c: Core, t: Trace, i: nat)
    requires Sized(c, t) && i < c.writeId
  {
    && 1 <= |t.log[i].text| <= MAX_LENGTH
    && Stored(c.ring, t.at[i], t.log[i])
    && Linked(c, t, i)
    && Placed(c, t, i)
  }

  ghost predicate Consistent(c: Core, t: Trace) {
    && Sized(c, t)
    && c.tailPtr == Pos(c, t, c.tailId)
    && (c.tailId < t.lap ==> c.writePtr <= c.tailPtr)
    && forall i :: c.tailId <= i < c.writeId ==> Held(c, t, i)
  }

  predicate InRedzone(writePtr: nat, p: nat) {
    writePtr <= p < writePtr + REDZONE
  }

  /**
   * Following the events from p, with a terminator standing for the start of the
   * ring, reads exactly es, each one intact, and ends at stop.
   */
  ghost predicate Spells(ring: seq<byte>, p: nat, es: seq<Event>, stop: nat)
    decreases |es|
  {
    if es == [] then p == stop
    else
      && p + HEADER <= |ring|
      && var q := if LengthAt(ring, p) == 0 then 0 else p;
         Stored(ring, q, es[0]) && Spells(ring, q + Span(|es[0].text|), es[1..], stop)
  }

  /** Between two messages: the writer is not waiting at the start of a new lap. */
  ghost predicate Settled(c: Core, t: Trace) {
    Consistent(c, t) && (c.writeId > 0 ==> t.lap < c.writeId)
  }

  /** From the tail, exactly writeId - tailId intact events lead to the writer. */
  lemma TailReachesWriter(c: Core, t: Trace)
    requires Settled(c, t)
    ensures Spells(c.ring, c.tailPtr, t.log[c.tailId..], c.writePtr)
    ensures |t.log[c.tailId..]| == c.writeId - c.tailId
  {
    if c.writeId > 0 {
      assert Held(c, t, c.tailId);
      SpellsFrom(c, t, c.tailId, c.tailPtr);
    }
  }

  lemma {:induction false} SpellsFrom(c: Core, t: Trace, i: nat, p: nat)
    requires Settled(c, t) && Readable(c, t, p, i)
    ensures Spells(c.ring, p, t.log[i..], c.writePtr)
    decreases c.writeId - i
  {
    ReadableNext(c, t, p, i);
    if i + 1 < c.writeId {
      SpellsFrom(c, t, i + 1, End(t, i));
    }
    assert t.log[i..][1..] == t.log[i + 1..];
  }

  /** Reading event i from p leaves the reader on event i + 1 or on the writer. */
  lemma ReadableNext(c: Core, t: Trace, p: nat, i: nat)
    requires Consistent(c, t) && Readable(c, t, p, i)
    ensures t.at[i] == if LengthAt(c.ring, p) == 0 then 0 else p
    ensures Stored(c.ring, t.at[i], t.log[i])
    ensures i + 1 < c.writeId ==> Readable(c, t, End(t, i), i + 1)
    ensures i + 1 == c.writeId && t.lap <= i ==> End(t, i) == c.writePtr
  {
    assert Held(c, t, i);
    if i + 1 < c.writeId {
      assert Held(c, t, i + 1);
    }
  }

  /** A reader whose next event is i may sit on the event or on the terminator before it. */
  ghost predicate Readable(c: Core, t: Trace, p: nat, i: nat)
    requires Sized(c, t)
  {
    && c.tailId <= i < c.writeId
    && p + HEADER <= RING_SIZE
    && (p == t.at[i] || (LengthAt(c.ring, p) == 0 && t.at[i] == 0))
  }

  // ---- What each step of the producer keeps

  /** The tail moves one event on, through the terminator when it meets one. */
  ghost function TailNext(c: Core): Core
    requires c.tailPtr + HEADER <= |c.ring|
    requires c.tailPtr + Span(LengthAt(c.ring, c.tailPtr)) + HEADER <= |c.ring|
  {
    var next := c.tailPtr + Span(LengthAt(c.ring, c.tailPtr));
    c.(tailPtr := if LengthAt(c.ring, next) == 0 then 0 else next, tailId := c.tailId + 1)
  }

  /** A tail in the redzone is on the previous lap, and an event of this lap is left after it. */
  lemma RedzoneTail(c: Core, t: Trace)
    requires Consistent(c, t) && c.writeId > 0
    requires InRedzone(c.writePtr, c.tailPtr)
    ensures c.tailId < t.lap && c.tailId + 1 < c.writeId
    ensures c.tailPtr == t.at[c.tailId] && Stored(c.ring, c.tailPtr, t.log[c.tailId])
    ensures End(t, c.tailId) + HEADER <= RING_SIZE
    ensures TailNext(c).tailPtr == t.at[c.tailId + 1]
  {
    var i := c.tailId;
    assert Held(c, t, i);
    assert Span(|t.log[i].text|) <= MAX_LENGTH + HEADER;
    assert Held(c, t, i + 1);
  }

  /** Pushing the tail keeps the ring consistent and never meets the writer. */
  lemma PushKeeps(c: Core, t: Trace)
    requires Consistent(c, t) && c.writeId > 0
    requires InRedzone(c.writePtr, c.tailPtr)
    ensures c.tailPtr + HEADER <= RING_SIZE
    ensures c.tailPtr + Span(LengthAt(c.ring, c.tailPtr)) + HEADER <= RING_SIZE
    ensures c.tailId + 1 < c.writeId && c.tailPtr == t.at[c.tailId]
    ensures Consistent(TailNext(c), t)
  {
    RedzoneTail(c, t);
    var d := TailNext(c);
    assert d.tailPtr == Pos(d, t, d.tailId);
    assert Held(c, t, c.tailId);
    assert Held(c, t, c.tailId + 1);
    forall j | d.tailId <= j < d.writeId
      ensures Held(d, t, j)
    {
      assert Held(c, t, j);
      PlacedAfter(c, t, j);
    }
  }

  /** Within the previous lap every later event lies above the next one. */
  lemma {:induction false} PlacedAfter(c: Core, t: Trace, j: nat)
    requires Consistent(c, t) && c.tailId < j < c.writeId
    ensures j < t.lap ==> End(t, c.tailId) <= t.at[j]
    decreases j
  {
    if c.tailId + 1 < j && j < t.lap {
      PlacedAfter(c, t, j - 1);
    }
    assert Held(c, t, j - 1);
  }

  /** With the tail out of the way, a terminator starts a new lap. */
  ghost predicate WroteTerminator(c: Core, d: Core)
    requires c.writePtr + HEADER <= |c.ring|
  {
    && |d.ring| == |c.ring|
    && d == c.(ring := d.ring, writePtr := 0)
    && LengthAt(d.ring, c.writePtr) == 0
    && d.ring[..c.writePtr] == c.ring[..c.writePtr]
  }

  lemma WrapKeeps(c: Core, t: Trace, d: Core)
    requires Settled(c, t) && InRedzone(c.writePtr, RING_SIZE) && !InRedzone(c.writePtr, c.tailPtr)
    requires WroteTerminator(c, d)
    ensures Consistent(d, t.(lap := c.writeId))
  {
    var u := t.(lap := c.writeId);
    assert Held(c, t, c.tailId);
    assert t.lap <= c.tailId;
    forall i | d.tailId <= i < d.writeId
      ensures Held(d, u, i)
    {
      assert Held(c, t, i);
      StoredFrame(c.ring, d.ring, t.at[i], t.log[i], c.writePtr);
      if i > c.tailId { RisingInLap(c, t, i); }
    }
  }

  lemma {:induction false} RisingInLap(c: Core, t: Trace, j: nat)
    requires Consistent(c, t) && t.lap <= c.tailId < j < c.writeId
    ensures c.tailPtr <= t.at[j]
    decreases j
  {
    assert Held(c, t, j - 1);
    if c.tailId + 1 < j { RisingInLap(c, t, j - 1); }
  }

  /** An event stays intact when only bytes after it change. */
  lemma StoredFrame(r: seq<byte>, s: seq<byte>, p: nat, e: Event, w: nat)
    requires Stored(r, p, e) && p + Span(|e.text|) <= w <= |r| == |s|
    requires s[..w] == r[..w]
    ensures Stored(s, p, e)
  {
    assert forall k :: 0 <= k < w ==> s[k] == s[..w][k] == r[..w][k] == r[k];
  }

  lemma StoredFrameAbove(r: seq<byte>, s: seq<byte>, p: nat, e: Event, w: nat)
    requires Stored(r, p, e) && w <= p && |r| == |s|
    requires s[w..] == r[w..]
    ensures Stored(s, p, e)
  {
    assert forall k :: w <= k < |r| ==> s[k] == s[w..][k - w] == r[w..][k - w] == r[k];
  }

  /** The new event is written, and nothing outside the redzone changes. */
  ghost predicate WroteEvent(c: Core, d: Core, e: Event)
    requires c.writePtr + REDZONE <= |c.ring|
  {
    && |d.ring| == |c.ring|
    && d == c.(ring := d.ring, writePtr := c.writePtr + Span(|e.text|), writeId := c.writeId + 1)
    && Stored(d.ring, c.writePtr, e)
    && d.ring[..c.writePtr] == c.ring[..c.writePtr]
    && d.ring[c.writePtr + REDZONE..] == c.ring[c.writePtr + REDZONE..]
  }

  const LENGTH_MODULUS: nat := 65536

  /** How much of a formatted message vsnprintf() stores. */
  function Kept(msg: seq<byte>): nat {
    if |msg| < MAX_LENGTH then |msg| else MAX_LENGTH
  }

  /**
   * A formatted message of any length was written: as much of it as there is
   * room for is stored, but the header has the length of all of it, cut to 16
   * bits, and the write pointer steps over that many bytes.
   */
  ghost predicate WroteMessage(c: Core, d: Core, level: byte, facility: byte, msg: seq<byte>)
    requires c.writePtr + REDZONE <= |c.ring|
  {
    var w := c.writePtr;
    && |d.ring| == |c.ring|
    && d == c.(ring := d.ring, writePtr := w + Span(|msg| % LENGTH_MODULUS), writeId := c.writeId + 1)
    && LengthAt(d.ring, w) == |msg| % LENGTH_MODULUS
    && d.ring[w + 2] == level && d.ring[w + 3] == facility
    && d.ring[w + HEADER..w + HEADER + Kept(msg)] == msg[..Kept(msg)]
    && d.ring[..w] == c.ring[..w]
    && d.ring[w + REDZONE..] == c.ring[w + REDZONE..]
  }

  /** A message within the maximum is an event of the log. */
  lemma WroteShort(c: Core, d: Core, level: byte, facility: byte, msg: seq<byte>)
    requires c.writePtr + REDZONE <= |c.ring| && |msg| <= MAX_LENGTH
    requires WroteMessage(c, d, level, facility, msg)
    ensures WroteEvent(c, d, Event(level, facility, msg))
  {
    assert msg[..Kept(msg)] == msg;
  }

  /**
   * A longer message is not one: a reader is handed the characters that were
   * stored if and only if their number is what the header has, and the write
   * pointer stays in the space reserved for the event, with room for another
   * header, if and only if the header has no more than the maximum.
   */
  lemma LongMessageIff(c: Core, d: Core, level: byte, facility: byte, msg: seq<byte>)
    requires c.writePtr + REDZONE <= |c.ring|
    requires WroteMessage(c, d, level, facility, msg)
    ensures (&& c.writePtr + HEADER + LengthAt(d.ring, c.writePtr) <= |d.ring|
             && EventAt(d.ring, c.writePtr) == Event(level, facility, msg[..Kept(msg)]))
            <==> |msg| <= MAX_LENGTH || |msg| % LENGTH_MODULUS == MAX_LENGTH
    ensures d.writePtr + HEADER <= c.writePtr + REDZONE <==> |msg| % LENGTH_MODULUS <= MAX_LENGTH
  {
    var w, n := c.writePtr, |msg| % LENGTH_MODULUS;
    if n == Kept(msg) {
      assert d.ring[w + HEADER..w + HEADER + n] == msg[..Kept(msg)];
    } else if w + HEADER + n <= |d.ring| {
      assert |EventAt(d.ring, w).text| == n;
    }
  }

  ghost function Extended(c: Core, t: Trace, e: Event): Trace {
    Trace(t.log + [e], t.at + [c.writePtr], t.lap)
  }

  lemma AppendKeeps(c: Core, t: Trace, d: Core, e: Event)
    requires Consistent(c, t) && c.writePtr + REDZONE <= RING_SIZE
    requires c.writeId > 0 ==> !InRedzone(c.writePtr, c.tailPtr)
    requires 1 <= |e.text| <= MAX_LENGTH
    requires WroteEvent(c, d, e)
    ensures Settled(d, Extended(c, t, e))
  {
    var u := Extended(c, t, e);
    var w := c.writePtr;
    assert w > 0 ==> d.ring[..w][0] == c.ring[..w][0] && d.ring[..w][1] == c.ring[..w][1];
    assert Sized(d, u);
    forall i | d.tailId <= i < d.writeId
      ensures Held(d, u, i)
    {
      if i < c.writeId {
        assert Held(c, t, i);
        AppendKeepsOne(c, t, d, e, i);
      }
    }
  }

  lemma AppendKeepsOne(c: Core, t: Trace, d: Core, e: Event, i: nat)
    requires Consistent(c, t) && c.writePtr + REDZONE <= RING_SIZE
    requires !InRedzone(c.writePtr, c.tailPtr)
    requires c.tailId <= i < c.writeId && Held(c, t, i)
    requires WroteEvent(c, d, e)
    requires Sized(d, Extended(c, t, e)) && |e.text| <= MAX_LENGTH
    ensures Held(d, Extended(c, t, e), i)
  {
    var w := c.writePtr;
    if i < t.lap {
      StoredFrameAbove(c.ring, d.ring, t.at[i], t.log[i], w + REDZONE);
      var p := End(t, i);
      if i + 1 == t.lap {
        assert d.ring[w + REDZONE..][p - w - REDZONE] == c.ring[w + REDZONE..][p - w - REDZONE];
        assert d.ring[w + REDZONE..][p + 1 - w - REDZONE] == c.ring[w + REDZONE..][p + 1 - w - REDZONE];
      }
    } else {
      StoredFrame(c.ring, d.ring, t.at[i], t.log[i], w);
    }
  }

  // ---- Readers

  /** A log reader; `received` is what its logging function has been called with. */
  class LogReader {
    var readPtr: nat
    var readId: nat
    var received: seq<Event>
    ghost var startId: nat    // tail when the reader was initialized
    ghost var first: nat      // first event the reader was or will be handed

    constructor ()
      ensures received == []
    {
      readPtr, readId, received := 0, 0, [];
      startId, first := 0, 0;
    }

    /** Handed log[first..readId], in order and without gap; only events the tail had passed are missed. */
    ghost predicate Follows(t: Trace, tailId: nat)
      reads this
    {
      && startId <= first <= readId <= |t.log|
      && received == t.log[first..readId]
      && (first == startId || first <= tailId)
    }

    /** A longer log and a tail further on take nothing away from what was handed. */
    lemma FollowsOn(t0: Trace, tail0: nat, t: Trace, tail: nat)
      requires Follows(t0, tail0) && t0.log <= t.log && tail0 <= tail
      ensures Follows(t, tail)
    {
      assert t.log[first..readId] == t0.log[first..readId];
    }

    /** Nothing handed yet; the read pointer is good unless the tail has moved past it. */
    ghost predicate Fresh(c: Core, t: Trace)
      requires Sized(c, t)
      reads this
    {
      && first == readId == startId
      && (readId < c.tailId || (readId < c.writeId && readPtr == t.at[readId]) || (c.writeId == readId == readPtr == 0))
    }
  }

  /** The ring, its producer state and the registered readers. */
  class RingLog {
    const ring: array<byte>
    var writePtr: nat
    var tailPtr: nat
    var writeId: nat
    var tailId: nat
    var readers: seq<LogReader>
    ghost var trace: Trace
    ghost var unregistered: set<LogReader>

    ghost function View(): Core
      reads this, ring
    {
      Core(ring[..], writePtr, tailPtr, writeId, tailId)
    }

    ghost predicate Valid()
      reads this, ring, readers, unregistered
    {
      && Settled(View(), trace)
      && (forall r <- readers :: r !in unregistered && r.Follows(trace, tailId))
      && (forall r <- readers :: r.Fresh(View(), trace) || (r.readId == writeId && r.readPtr == writePtr))
      && (forall i, j :: 0 <= i < j < |readers| ==> readers[i] != readers[j])
      && (forall r <- unregistered :: r.Follows(trace, tailId) && r.Fresh(View(), trace))
    }

    constructor ()
      ensures Valid() && fresh(ring)
      ensures trace.log == [] && readers == [] && unregistered == {}
    {
      ring := new byte[RING_SIZE](_ => 0);
      writePtr, tailPtr, writeId, tailId := 0, 0, 0, 0;
      readers := [];
      trace := Trace([], [], 0);
      unregistered := {};
    }

    method InitializeAtStart(reader: LogReader)
      modifies reader`readPtr, reader`readId
      ensures reader.readPtr == tailPtr && reader.readId == tailId
    {
      reader.readPtr := tailPtr;
      reader.readId := tailId;
    }

    method InitializeReader(reader: LogReader)
      requires Valid() && reader !in readers && reader !in unregistered
      requires reader.received == []
      modifies this`unregistered, reader
      ensures Valid() && unregistered == old(unregistered) + {reader}
      ensures reader.startId == reader.readId == tailId && reader.received == []
    {
      InitializeAtStart(reader);
      reader.startId, reader.first := tailId, tailId;
      unregistered := unregistered + {reader};
      assert writeId > 0 ==> Held(View(), trace, tailId);
    }

    method RegisterReader(reader: LogReader)
      requires Valid() && reader in unregistered
      modifies this`readers, this`unregistered
      ensures Valid() && readers == old(readers) + [reader] && unregistered == old(unregistered) - {reader}
    {
      readers := readers + [reader];
      unregistered := unregistered - {reader};
    }

    /** Move the tail on by one event. */
    method TailGoNext()
      requires Consistent(View(), trace) && writeId > 0 && InRedzone(writePtr, tailPtr)
      modifies this`tailPtr, this`tailId
      ensures Consistent(View(), trace)
      ensures tailId == old(tailId) + 1 < writeId
      ensures trace.at[old(tailId)] == old(tailPtr)
    {
      PushKeeps(View(), trace);
      ghost var next := TailNext(View());
      tailPtr := tailPtr + Span(LengthAt(ring[..], tailPtr));
      tailId := tailId + 1;
      if LengthAt(ring[..], tailPtr) == 0 {
        tailPtr := 0;
      }
      assert View() == next;
    }

    /** Push the tail out of the redzone, past the events that lie in it and no others. */
    method PushTail()
      requires Consistent(View(), trace) && writeId > 0
      modifies this`tailPtr, this`tailId
      ensures Consistent(View(), trace) && !InRedzone(writePtr, tailPtr)
      ensures old(tailId) <= tailId < writeId
      ensures forall i :: old(tailId) <= i < tailId ==> InRedzone(writePtr, trace.at[i])
    {
      while InRedzone(writePtr, tailPtr)
        invariant Consistent(View(), trace)
        invariant old(tailId) <= tailId < writeId
        invariant forall i :: old(tailId) <= i < tailId ==> InRedzone(writePtr, trace.at[i])
        decreases writeId - tailId
      {
        TailGoNext();
      }
    }

    /** Make sure the next event fits where the write pointer is: start a new lap if need be, push the tail. */
    method MakeRoom()
      requires Settled(View(), trace)
      modifies this`writePtr, this`tailPtr, this`tailId, this`trace, ring
      ensures Consistent(View(), trace) && writePtr + REDZONE <= RING_SIZE
      ensures writeId > 0 ==> tailId < writeId && !InRedzone(writePtr, tailPtr)
      ensures old(tailId) <= tailId
      ensures trace.log == old(trace.log) && trace.at == old(trace.at)
      ensures if InRedzone(old(writePtr), RING_SIZE)
              then writePtr == 0 && LengthAt(ring[..], old(writePtr)) == 0
              else writePtr == old(writePtr) && ring[..] == old(ring[..])
    {
      if InRedzone(writePtr, RING_SIZE) {
        PushTail();
        ghost var before := View();
        ring[writePtr], ring[writePtr + 1] := 0, 0;
        writePtr := 0;
        WrapKeeps(before, trace, View());
        trace := trace.(lap := writeId);
      }
      if writeId != 0 {
        PushTail();
      }
    }

    /** What vsnprintf() stores of a message, with the NUL it adds. */
    method StoreMessage(w: nat, msg: seq<byte>)
      requires w + REDZONE <= ring.Length
      modifies ring
      ensures ring[w + HEADER..w + HEADER + Kept(msg)] == msg[..Kept(msg)]
      ensures ring[..w + HEADER] == old(ring[..w + HEADER]) && ring[w + REDZONE..] == old(ring[w + REDZONE..])
    {
      for k := 0 to Kept(msg)
        invariant ring[w + HEADER..w + HEADER + k] == msg[..k]
        invariant ring[..w + HEADER] == old(ring[..w + HEADER]) && ring[w + REDZONE..] == old(ring[w + REDZONE..])
      {
        ring[w + HEADER + k] := msg[k];
      }
      ring[w + HEADER + Kept(msg)] := 0;
    }

    /** Write an event at the write pointer, then step over it. */
    method WriteEvent(level: byte, facility: byte, msg: seq<byte>)
      requires writePtr + REDZONE <= ring.Length
      modifies this`writePtr, this`writeId, ring
      ensures WroteMessage(old(View()), View(), level, facility, msg)
    {
      var w := writePtr;
      StoreMessage(w, msg);
      ghost var stored := ring[..];
      ring[w + 2], ring[w + 3] := level, facility;
      var length := |msg| % LENGTH_MODULUS;
      ring[w], ring[w + 1] := (length % 256) as byte, (length / 256) as byte;
      writePtr := w + Span(length);
      writeId := writeId + 1;
      ghost var now, was := View().ring, old(View()).ring;
      assert now[..w] == stored[..w + HEADER][..w] == was[..w];
      assert now[w + REDZONE..] == stored[w + REDZONE..] == was[w + REDZONE..];
      assert now[w + HEADER..w + HEADER + Kept(msg)] == stored[w + HEADER..w + HEADER + Kept(msg)];
      assert LengthAt(now, w) == length;
    }

    /** Hand a reader its next event and step over it. */
    method ReadOne(r: LogReader)
      requires Settled(View(), trace)
      requires r.Follows(trace, tailId) && Readable(View(), trace, r.readPtr, r.readId)
      modifies r`readPtr, r`readId, r`received
      ensures r.readId == old(r.readId) + 1
      ensures r.Follows(trace, tailId)
      ensures r.readId < writeId ==> Readable(View(), trace, r.readPtr, r.readId)
      ensures r.readId == writeId ==> r.readPtr == writePtr
    {
      ghost var i, v := r.readId, View();
      ReadableNext(v, trace, r.readPtr, i);
      SliceGrows(trace.log, r.first, i);
      if LengthAt(ring[..], r.readPtr) == 0 {
        r.readPtr := 0;
      }
      var event := EventAt(ring[..], r.readPtr);
      assert event == trace.log[i];
      r.received := r.received + [event];
      r.readPtr := r.readPtr + Span(|event.text|);
      r.readId := r.readId + 1;
      assert View() == v && r.readPtr == End(trace, i);
    }

    /** Catch a reader up with the writer. */
    method SyncReader(r: LogReader)
      requires Settled(View(), trace) && writeId > 0
      requires r.Follows(trace, tailId)
      requires r.Fresh(View(), trace) || Readable(View(), trace, r.readPtr, r.readId)
      modifies r
      ensures r.Follows(trace, tailId) && r.readId == writeId && r.readPtr == writePtr
      ensures r.startId == old(r.startId)
      ensures r.first == if old(r.readId) < tailId then tailId else old(r.first)
    {
      if r.readId < tailId {
        InitializeAtStart(r);
        r.first := tailId;
      }
      assert Held(View(), trace, r.readId);
      while r.readId < writeId
        invariant r.readId < writeId ==> Readable(View(), trace, r.readPtr, r.readId)
        invariant r.readId == writeId ==> r.readPtr == writePtr
        invariant r.Follows(trace, tailId) && r.startId == old(r.startId)
        invariant r.first == if old(r.readId) < tailId then tailId else old(r.first)
        decreases writeId - r.readId
      {
        ReadOne(r);
      }
    }

    /** Catch all registered readers up with the writer. */
    method SyncAllReaders()
      requires Settled(View(), trace) && writeId > 0
      requires forall i, j :: 0 <= i < j < |readers| ==> readers[i] != readers[j]
      requires forall r <- readers :: r.Follows(trace, tailId)
      requires forall r <- readers :: r.Fresh(View(), trace) || Readable(View(), trace, r.readPtr, r.readId)
      modifies readers
      ensures forall r <- readers :: r.Follows(trace, tailId) && r.readId == writeId && r.readPtr == writePtr
      ensures forall r <- readers :: r.startId == old(r.startId)
      ensures forall r <- readers :: r.first == if old(r.readId) < tailId then tailId else old(r.first)
    {
      for k := 0 to |readers|
        invariant forall i :: k <= i < |readers| ==> unchanged(readers[i])
        invariant forall i :: 0 <= i < k ==>
          && readers[i].Follows(trace, tailId) && readers[i].readId == writeId && readers[i].readPtr == writePtr
          && readers[i].startId == old(readers[i].startId)
          && readers[i].first == if old(readers[i].readId) < tailId then tailId else old(readers[i].first)
      {
        SyncReader(readers[k]);
      }
    }

    /** Make room, then write the event; whoever was level with the writer can read it. */
    method AppendEvent(level: byte, facility: byte, msg: seq<byte>)
      requires Settled(View(), trace) && 1 <= |msg| <= MAX_LENGTH
      modifies this`writePtr, this`tailPtr, this`writeId, this`tailId, this`trace, ring
      ensures Settled(View(), trace)
      ensures writeId == old(writeId) + 1 && old(tailId) <= tailId
      ensures trace.log == old(trace.log) + [Event(level, facility, msg)]
      ensures old(trace.at) <= trace.at && (old(writeId) == 0 ==> trace.at[0] == 0)
      ensures Readable(View(), trace, old(writePtr), old(writeId))
    {
      ghost var c0, t0 := View(), trace;
      MakeRoom();
      ghost var c1, t1 := View(), trace;
      WriteEvent(level, facility, msg);
      ghost var e := Event(level, facility, msg);
      WroteShort(c1, View(), level, facility, msg);
      AppendKeeps(c1, t1, View(), e);
      trace := Extended(c1, t1, e);
      StillReadable(c0, t0, c1, View(), trace, c0.writePtr, c0.writeId);
    }

    /** Append the event, leaving every reader able to catch up. */
    method Publish(level: byte, facility: byte, msg: seq<byte>)
      requires Valid() && 1 <= |msg| <= MAX_LENGTH
      modifies this`writePtr, this`tailPtr, this`writeId, this`tailId, this`trace, ring
      ensures Settled(View(), trace) && writeId > 0
      ensures trace.log == old(trace.log) + [Event(level, facility, msg)]
      ensures forall r <- readers :: r.Follows(trace, tailId)
      ensures forall r <- readers :: r.Fresh(View(), trace) || Readable(View(), trace, r.readPtr, r.readId)
      ensures forall r <- readers :: r.readId < tailId ==> r.received == []
      ensures forall r <- unregistered :: r.Follows(trace, tailId) && r.Fresh(View(), trace)
    {
      ghost var t0, tail0 := trace, tailId;
      AppendEvent(level, facility, msg);
      forall r <- readers ensures r.Follows(trace, tailId) {
        r.FollowsOn(t0, tail0, trace, tailId);
      }
      forall r <- unregistered ensures r.Follows(trace, tailId) {
        r.FollowsOn(t0, tail0, trace, tailId);
      }
    }

    /**
     * Log a message. The unbounded log grows by exactly this event, and every
     * registered reader has been handed all of it from its first event on.
     */
    method LogMessage(level: byte, facility: byte, msg: seq<byte>)
      requires Valid() && 1 <= |msg| <= MAX_LENGTH
      modifies this`writePtr, this`tailPtr, this`writeId, this`tailId, this`trace, ring, readers
      ensures Valid()
      ensures trace.log == old(trace.log) + [Event(level, facility, msg)]
      ensures forall r <- readers :: r.received == trace.log[r.first..] && r.startId == old(r.startId)
      ensures forall r <- readers :: r.first == old(r.first) || (old(r.received) == [] && r.first == tailId)
    {
      Publish(level, facility, msg);
      SyncAllReaders();
    }

    /** Any run of messages: the log is exactly the run, and so is what each reader was handed. */
    method LogRun(run: seq<Event>)
      requires Valid() && forall e <- run :: 1 <= |e.text| <= MAX_LENGTH
      modifies this`writePtr, this`tailPtr, this`writeId, this`tailId, this`trace, ring, readers
      ensures Valid()
      ensures trace.log == old(trace.log) + run
      ensures Spells(ring[..], tailPtr, trace.log[tailId..], writePtr)
      ensures run != [] ==> forall r <- readers :: r.received == trace.log[r.first..]
      ensures forall r <- readers :: old(r.received) != [] ==> r.first == old(r.first)
    {
      for k := 0 to |run|
        invariant Valid()
        invariant trace.log == old(trace.log) + run[..k]
        invariant k > 0 ==> forall r <- readers :: r.received == trace.log[r.first..]
        invariant forall r <- readers :: old(r.received) != [] ==> r.first == old(r.first) && r.received != []
      {
        LogMessage(run[k].level, run[k].facility, run[k].text);
        assert run[..k + 1] == run[..k] + [run[k]];
      }
      TailReachesWriter(View(), trace);
    }
  }

  lemma SliceGrows<T>(s: seq<T>, i: nat, j: nat)
    requires i <= j < |s|
    ensures s[i..j + 1] == s[i..j] + [s[j]]
  {}

  /** A reader that was level with the writer finds the new event, past the terminator if a lap was started. */
  lemma StillReadable(c0: Core, t0: Trace, c1: Core, d: Core, u: Trace, p: nat, id: nat)
    requires Settled(c0, t0) && Sized(d, u)
    requires c1.writeId == c0.writeId && |c1.ring| == RING_SIZE && c1.writePtr + REDZONE <= RING_SIZE
    requires if InRedzone(c0.writePtr, RING_SIZE)
             then c1.writePtr == 0 && LengthAt(c1.ring, c0.writePtr) == 0
             else c1.writePtr == c0.writePtr
    requires d.writeId == c1.writeId + 1 && d.tailId == c1.tailId <= c1.writeId
    requires d.ring[c1.writePtr + REDZONE..] == c1.ring[c1.writePtr + REDZONE..]
    requires u.at == t0.at + [c1.writePtr]
    ensures id == c0.writeId && p == c0.writePtr ==> Readable(d, u, p, id)
  {
    if InRedzone(c0.writePtr, RING_SIZE) {
      var k := c0.writePtr;
      assert d.ring[REDZONE..][k - REDZONE] == c1.ring[REDZONE..][k - REDZONE];
      assert d.ring[REDZONE..][k + 1 - REDZONE] == c1.ring[REDZONE..][k + 1 - REDZONE];
    }
  }

  // ---- Empty messages

  /** Where a reader at p looks for its next event. */
  function Skip(ring: seq<byte>, p: nat): nat
    requires p + HEADER <= |ring|
  {
    if LengthAt(ring, p) == 0 then 0 else p
  }

  /**
   * A message of zero length encodes as a terminator. A reader level with the
   * writer is handed the event that was just written if and only if its text
   * is not empty or it was written at the start of the ring.
   */
  lemma DeliveredIff(c: Core, t: Trace, d: Core, e: Event, p: nat)
    requires Consistent(c, t) && c.writePtr + REDZONE <= RING_SIZE && |e.text| <= MAX_LENGTH
    requires WroteEvent(c, d, e)
    requires p == c.writePtr || (c.writePtr == 0 && p + HEADER <= RING_SIZE && LengthAt(d.ring, p) == 0)
    ensures Skip(d.ring, p) + HEADER + LengthAt(d.ring, Skip(d.ring, p)) <= RING_SIZE
    ensures EventAt(d.ring, Skip(d.ring, p)) == e <==> e.text != [] || c.writePtr == 0
  {
    if c.writePtr > 0 {
      assert d.ring[..c.writePtr][0] == c.ring[..c.writePtr][0];
      assert d.ring[..c.writePtr][1] == c.ring[..c.writePtr][1];
      assert LengthAt(d.ring, 0) == LengthAt(c.ring, 0);
    }
  }

  /** After an empty message in the middle of the ring, a reader is handed the first event of the lap again. */
  lemma HandedAgain(c: Core, t: Trace, d: Core, e: Event)
    requires Consistent(c, t) && c.writePtr + REDZONE <= RING_SIZE
    requires c.writePtr > 0 && c.tailId <= t.lap
    requires e.text == [] && WroteEvent(c, d, e)
    ensures t.lap < c.writeId && Skip(d.ring, c.writePtr) == 0
    ensures EventAt(d.ring, 0) == t.log[t.lap] != e
  {
    assert Held(c, t, t.lap);
    StoredFrame(c.ring, d.ring, 0, t.log[t.lap], c.writePtr);
  }
}
