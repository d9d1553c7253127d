/**
 * The bytes of a message: gathered from the sender's buffers into the kernel,
 * then scattered over the receiver's buffers.
 */
module Message {

  const MAX_MESSAGE_SIZE := 2048
  const MAX_BUFFER_SIZE := 64 * 1024 * 1024
  const MAX_BUFFERS_IN_ARRAY := 256

  type Byte = b: int | 0 <= b < 256

  datatype Buffer = Buffer(addr: nat, size: nat)

  function Min(a: nat, b: nat): nat {
    if a <= b then a else b
  }

  /** User space ends at `limit`. */
  predicate InUserSpace(b: Buffer, limit: nat) {
    b.addr < limit && b.size <= limit - b.addr
  }

  /** The first n buffers are in user space. */
  predicate AllInUserSpace(bs: seq<Buffer>, n: nat, limit: nat)
    requires n <= |bs|
  {
    forall i :: 0 <= i < n ==> InUserSpace(bs[i], limit)
  }

  /** The size of the first n buffers. */
  function Total(bs: seq<Buffer>, n: nat): nat
    requires n <= |bs|
  {
    if n == 0 then 0 else Total(bs, n - 1) + bs[n - 1].size
  }

  lemma {:induction false} TotalGrows(bs: seq<Buffer>, i: nat, n: nat)
    requires i <= n <= |bs|
    ensures Total(bs, i) <= Total(bs, n)
  {
    if i < n {
      TotalGrows(bs, i, n - 1);
    }
  }

  // ---- What the buffers hold

  function Slice(m: seq<Byte>, b: Buffer): seq<Byte>
    requires InUserSpace(b, |m|)
  {
    m[b.addr..b.addr + b.size]
  }

  /** The contents of the first n buffers, one after the other. */
  function Contents(m: seq<Byte>, bs: seq<Buffer>, n: nat): (r: seq<Byte>)
    requires n <= |bs| && AllInUserSpace(bs, n, |m|)
    ensures |r| == Total(bs, n)
  {
    if n == 0 then [] else Contents(m, bs, n - 1) + Slice(m, bs[n - 1])
  }

  function Write(m: seq<Byte>, addr: nat, bytes: seq<Byte>): (r: seq<Byte>)
    requires addr + |bytes| <= |m|
    ensures |r| == |m|
  {
    seq(|m|, i requires 0 <= i < |m| => if addr <= i < addr + |bytes| then bytes[i - addr] else m[i])
  }

  /** The part of a message that goes into the i-th buffer. */
  function Chunk(bs: seq<Buffer>, i: nat, msg: seq<Byte>): (r: seq<Byte>)
    requires i < |bs|
    ensures |r| <= bs[i].size
  {
    var from := Min(Total(bs, i), |msg|);
    msg[from..from + Min(bs[i].size, |msg| - from)]
  }

  /** User memory after a message has been spread over the first n buffers in order. */
  function Scattered(m: seq<Byte>, bs: seq<Buffer>, n: nat, msg: seq<Byte>): (r: seq<Byte>)
    requires n <= |bs| && AllInUserSpace(bs, n, |m|)
    ensures |r| == |m|
  {
    if n == 0 then m else Write(Scattered(m, bs, n - 1, msg), bs[n - 1].addr, Chunk(bs, n - 1, msg))
  }

  /** The buffers hold the first k bytes of the message. */
  ghost predicate ReadsBack(m: seq<Byte>, bs: seq<Buffer>, msg: seq<Byte>, k: nat)
    requires AllInUserSpace(bs, |bs|, |m|) && k <= |msg| && k <= Total(bs, |bs|)
  {
    Contents(m, bs, |bs|)[..k] == msg[..k]
  }

  /** How much of the i-th buffer the first k bytes of a message reach. */
  function Reach(bs: seq<Buffer>, i: nat, k: nat): nat
    requires i < |bs|
  {
    Min(bs[i].size, k - Min(Total(bs, i), k))
  }

  predicate Apart(a: nat, n: nat, b: nat, m: nat) {
    n == 0 || m == 0 || a + n <= b || b + m <= a
  }

  /** The parts of the buffers that k bytes reach do not overlap. */
  predicate ReachedApart(bs: seq<Buffer>, k: nat) {
    forall i, j {:trigger Reach(bs, i, k), Reach(bs, j, k)} ::
      0 <= i < j < |bs| ==> Apart(bs[i].addr, Reach(bs, i, k), bs[j].addr, Reach(bs, j, k))
  }

  // ---- Where each byte goes

  /** The address of byte p of the first n buffers. */
  function Where(bs: seq<Buffer>, n: nat, p: nat): nat
    requires n <= |bs| && p < Total(bs, n)
  {
    if p < Total(bs, n - 1) then Where(bs, n - 1, p) else bs[n - 1].addr + (p - Total(bs, n - 1))
  }

  lemma {:induction false} WhereIn(bs: seq<Buffer>, n: nat, i: nat, p: nat)
    requires i < n <= |bs| && Total(bs, i) <= p < Total(bs, i) + bs[i].size
    ensures p < Total(bs, n) && Where(bs, n, p) == bs[i].addr + (p - Total(bs, i))
  {
    TotalGrows(bs, i + 1, n);
    if i + 1 < n {
      TotalGrows(bs, i + 1, n - 1);
      WhereIn(bs, n - 1, i, p);
    }
  }

  /** The buffer that byte p is in. */
  lemma {:induction false} PartOf(bs: seq<Buffer>, n: nat, p: nat) returns (i: nat)
    requires n <= |bs| && p < Total(bs, n)
    ensures i < n && Total(bs, i) <= p < Total(bs, i) + bs[i].size
    ensures Where(bs, n, p) == bs[i].addr + (p - Total(bs, i))
  {
    if p < Total(bs, n - 1) {
      i := PartOf(bs, n - 1, p);
    } else {
      i := n - 1;
    }
  }

  lemma {:induction false} ContentsAt(m: seq<Byte>, bs: seq<Buffer>, n: nat, p: nat)
    requires n <= |bs| && AllInUserSpace(bs, n, |m|) && p < Total(bs, n)
    ensures Where(bs, n, p) < |m| && Contents(m, bs, n)[p] == m[Where(bs, n, p)]
  {
    assert InUserSpace(bs[n - 1], |m|);
    if p < Total(bs, n - 1) {
      ContentsAt(m, bs, n - 1, p);
    }
  }

  /** No two of the first k bytes go to the same address. */
  ghost predicate NoClash(bs: seq<Buffer>, n: nat, k: nat)
    requires n <= |bs| && k <= Total(bs, n)
  {
    forall p, q {:trigger Where(bs, n, p), Where(bs, n, q)} :: 0 <= p < q < k ==> Where(bs, n, p) != Where(bs, n, q)
  }

  lemma ClashFree(bs: seq<Buffer>, k: nat)
    requires k <= Total(bs, |bs|) && ReachedApart(bs, k)
    ensures NoClash(bs, |bs|, k)
  {
    forall p, q | 0 <= p < q < k ensures Where(bs, |bs|, p) != Where(bs, |bs|, q) {
      TwoPlaces(bs, k, p, q);
    }
  }

  lemma TwoPlaces(bs: seq<Buffer>, k: nat, p: nat, q: nat)
    requires p < q < k <= Total(bs, |bs|) && ReachedApart(bs, k)
    ensures Where(bs, |bs|, p) != Where(bs, |bs|, q)
  {
    var i := PartOf(bs, |bs|, p);
    var j := PartOf(bs, |bs|, q);
    Ordered(bs, i, j, p, q);
    InReach(bs, i, k, p);
    InReach(bs, j, k, q);
    if i < j {
      assert Apart(bs[i].addr, Reach(bs, i, k), bs[j].addr, Reach(bs, j, k));
    }
  }

  lemma InReach(bs: seq<Buffer>, i: nat, k: nat, p: nat)
    requires i < |bs| && Total(bs, i) <= p < Total(bs, i) + bs[i].size && p < k
    ensures p - Total(bs, i) < Reach(bs, i, k)
  {}

  /** Later bytes are in later buffers. */
  lemma Ordered(bs: seq<Buffer>, i: nat, j: nat, p: nat, q: nat)
    requires i < |bs| && j < |bs| && p < q
    requires Total(bs, i) <= p && q < Total(bs, j) + bs[j].size
    ensures i <= j
  {
    TotalGrows(bs, if j < i then j + 1 else i, i);
  }

  lemma FreeOfClash(bs: seq<Buffer>, k: nat)
    requires k <= Total(bs, |bs|) && NoClash(bs, |bs|, k)
    ensures ReachedApart(bs, k)
  {
    forall i, j | 0 <= i < j < |bs| ensures Apart(bs[i].addr, Reach(bs, i, k), bs[j].addr, Reach(bs, j, k)) {
      TotalGrows(bs, i + 1, j);
      if !Apart(bs[i].addr, Reach(bs, i, k), bs[j].addr, Reach(bs, j, k)) {
        Clash(bs, i, j, k);
      }
    }
  }

  /** Two parts that overlap have bytes that clash. */
  lemma Clash(bs: seq<Buffer>, i: nat, j: nat, k: nat)
    requires i < j < |bs| && k <= Total(bs, |bs|)
    requires !Apart(bs[i].addr, Reach(bs, i, k), bs[j].addr, Reach(bs, j, k))
    ensures !NoClash(bs, |bs|, k)
  {
    TotalGrows(bs, i + 1, j);
    var a := if bs[i].addr <= bs[j].addr then bs[j].addr else bs[i].addr;
    var p, q := Total(bs, i) + (a - bs[i].addr), Total(bs, j) + (a - bs[j].addr);
    WhereIn(bs, |bs|, i, p);
    WhereIn(bs, |bs|, j, q);
    assert 0 <= p < q < k && Where(bs, |bs|, p) == Where(bs, |bs|, q);
  }

  lemma {:induction false} SameWhere(bs: seq<Buffer>, n: nat, p: nat)
    requires n < |bs| && p < Total(bs, n)
    ensures p < Total(bs, n + 1) && Where(bs, n + 1, p) == Where(bs, n, p)
  {}

  /** Without clashes every byte that was written is still there. */
  lemma {:induction false} ScatteredAt(m: seq<Byte>, bs: seq<Buffer>, n: nat, msg: seq<Byte>, p: nat)
    requires n <= |bs| && AllInUserSpace(bs, n, |m|) && NoClash(bs, n, Min(Total(bs, n), |msg|))
    requires p < Min(Total(bs, n), |msg|)
    ensures Where(bs, n, p) < |m| && Scattered(m, bs, n, msg)[Where(bs, n, p)] == msg[p]
  {
    assert InUserSpace(bs[n - 1], |m|);
    if p < Total(bs, n - 1) {
      NoClashBefore(bs, n, |msg|);
      ScatteredAt(m, bs, n - 1, msg, p);
      Kept(Scattered(m, bs, n - 1, msg), bs, n, msg, p);
    } else {
      Put(Scattered(m, bs, n - 1, msg), bs, n, msg, p);
    }
  }

  lemma Kept(s: seq<Byte>, bs: seq<Buffer>, n: nat, msg: seq<Byte>, p: nat)
    requires 0 < n <= |bs| && InUserSpace(bs[n - 1], |s|) && NoClash(bs, n, Min(Total(bs, n), |msg|))
    requires p < Min(Total(bs, n - 1), |msg|) && Where(bs, n, p) < |s|
    ensures Write(s, bs[n - 1].addr, Chunk(bs, n - 1, msg))[Where(bs, n, p)] == s[Where(bs, n, p)]
  {
    NotOverwritten(bs, n, |msg|, p);
    ChunkAt(bs, n - 1, msg, p);
    WrittenAt(s, bs[n - 1].addr, Chunk(bs, n - 1, msg), Where(bs, n, p));
  }

  lemma Put(s: seq<Byte>, bs: seq<Buffer>, n: nat, msg: seq<Byte>, p: nat)
    requires 0 < n <= |bs| && InUserSpace(bs[n - 1], |s|) && Total(bs, n - 1) <= p < Min(Total(bs, n), |msg|)
    ensures Where(bs, n, p) < |s| && Write(s, bs[n - 1].addr, Chunk(bs, n - 1, msg))[Where(bs, n, p)] == msg[p]
  {
    ChunkAt(bs, n - 1, msg, p);
    WrittenAt(s, bs[n - 1].addr, Chunk(bs, n - 1, msg), Where(bs, n, p));
  }

  lemma ChunkAt(bs: seq<Buffer>, i: nat, msg: seq<Byte>, p: nat)
    requires i < |bs| && p < |msg|
    ensures |Chunk(bs, i, msg)| == Reach(bs, i, |msg|)
    ensures Total(bs, i) <= p < Total(bs, i) + bs[i].size ==>
              p - Total(bs, i) < |Chunk(bs, i, msg)| && Chunk(bs, i, msg)[p - Total(bs, i)] == msg[p]
  {}

  lemma WrittenAt(m: seq<Byte>, addr: nat, bytes: seq<Byte>, a: nat)
    requires addr + |bytes| <= |m| && a < |m|
    ensures Write(m, addr, bytes)[a] == if addr <= a < addr + |bytes| then bytes[a - addr] else m[a]
  {}

  /** The last buffer is not where an earlier byte went. */
  lemma NotOverwritten(bs: seq<Buffer>, n: nat, k: nat, p: nat)
    requires 0 < n <= |bs| && p < Min(Total(bs, n - 1), k) && NoClash(bs, n, Min(Total(bs, n), k))
    ensures var a := Where(bs, n, p); a < bs[n - 1].addr || bs[n - 1].addr + Reach(bs, n - 1, k) <= a
  {
    var a := Where(bs, n, p);
    if bs[n - 1].addr <= a < bs[n - 1].addr + Reach(bs, n - 1, k) {
      Overwrites(bs, n, k, p);
    }
  }

  lemma Overwrites(bs: seq<Buffer>, n: nat, k: nat, p: nat)
    requires 0 < n <= |bs| && p < Min(Total(bs, n - 1), k)
    requires bs[n - 1].addr <= Where(bs, n, p) < bs[n - 1].addr + Reach(bs, n - 1, k)
    ensures !NoClash(bs, n, Min(Total(bs, n), k))
  {
    var q := Total(bs, n - 1) + (Where(bs, n, p) - bs[n - 1].addr);
    assert Where(bs, n, q) == Where(bs, n, p);
  }

  lemma NoClashBefore(bs: seq<Buffer>, n: nat, k: nat)
    requires 0 < n <= |bs| && NoClash(bs, n, Min(Total(bs, n), k))
    ensures NoClash(bs, n - 1, Min(Total(bs, n - 1), k))
  {
    var before := n - 1;
    forall p, q | 0 <= p < q < Min(Total(bs, before), k) ensures Where(bs, before, p) != Where(bs, before, q) {
      SameWhere(bs, before, p);
      SameWhere(bs, before, q);
    }
  }

  /** Spread over buffers whose parts do not overlap, a message is read back as it was. */
  lemma ScatteredReadBack(m: seq<Byte>, bs: seq<Buffer>, msg: seq<Byte>)
    requires AllInUserSpace(bs, |bs|, |m|) && |msg| <= Total(bs, |bs|) && ReachedApart(bs, |msg|)
    ensures ReadsBack(Scattered(m, bs, |bs|, msg), bs, msg, |msg|)
  {
    ClashFree(bs, |msg|);
    BackUpTo(m, bs, msg, |msg|);
  }

  lemma {:induction false} BackUpTo(m: seq<Byte>, bs: seq<Buffer>, msg: seq<Byte>, k: nat)
    requires AllInUserSpace(bs, |bs|, |m|) && k <= |msg| <= Total(bs, |bs|) && NoClash(bs, |bs|, |msg|)
    ensures ReadsBack(Scattered(m, bs, |bs|, msg), bs, msg, k)
  {
    if 0 < k {
      BackUpTo(m, bs, msg, k - 1);
      BackAt(m, bs, msg, k - 1);
      OneMore(Contents(Scattered(m, bs, |bs|, msg), bs, |bs|), msg, k - 1);
    }
  }

  lemma BackAt(m: seq<Byte>, bs: seq<Buffer>, msg: seq<Byte>, p: nat)
    requires AllInUserSpace(bs, |bs|, |m|) && p < |msg| <= Total(bs, |bs|) && NoClash(bs, |bs|, |msg|)
    ensures Contents(Scattered(m, bs, |bs|, msg), bs, |bs|)[p] == msg[p]
  {
    ScatteredAt(m, bs, |bs|, msg, p);
    ContentsAt(Scattered(m, bs, |bs|, msg), bs, |bs|, p);
  }

  lemma OneMore(c: seq<Byte>, msg: seq<Byte>, k: nat)
    requires k < |c| && k < |msg| && c[..k] == msg[..k] && c[k] == msg[k]
    ensures c[..k + 1] == msg[..k + 1]
  {
    assert c[..k + 1] == c[..k] + [c[k]] && msg[..k + 1] == msg[..k] + [msg[k]];
  }

  /** A message that is read back has the same byte wherever two of its bytes clash. */
  lemma ReadBackAgrees(r: seq<Byte>, bs: seq<Buffer>, msg: seq<Byte>, p: nat, q: nat)
    requires AllInUserSpace(bs, |bs|, |r|) && |msg| <= Total(bs, |bs|) && ReadsBack(r, bs, msg, |msg|)
    requires p < |msg| && q < |msg| && Where(bs, |bs|, p) == Where(bs, |bs|, q)
    ensures msg[p] == msg[q]
  {
    ContentsAt(r, bs, |bs|, p);
    ContentsAt(r, bs, |bs|, q);
    assert Contents(r, bs, |bs|)[..|msg|][p] == msg[..|msg|][p] && Contents(r, bs, |bs|)[..|msg|][q] == msg[..|msg|][q];
  }

  ghost predicate AlwaysReadsBack(bs: seq<Buffer>, limit: nat, k: nat)
    requires AllInUserSpace(bs, |bs|, limit) && k <= Total(bs, |bs|)
  {
    forall m: seq<Byte>, msg: seq<Byte> {:trigger Scattered(m, bs, |bs|, msg)} ::
      |m| == limit && |msg| == k ==> ReadsBack(Scattered(m, bs, |bs|, msg), bs, msg, k)
  }

  /** A message of k bytes that fits is read back, whatever it is, if and only if the parts it reaches do not overlap. */
  lemma ReadBackIff(bs: seq<Buffer>, limit: nat, k: nat)
    requires AllInUserSpace(bs, |bs|, limit) && k <= Total(bs, |bs|)
    ensures AlwaysReadsBack(bs, limit, k) <==> ReachedApart(bs, k)
  {
    if ReachedApart(bs, k) {
      forall m: seq<Byte>, msg: seq<Byte> | |m| == limit && |msg| == k
        ensures ReadsBack(Scattered(m, bs, |bs|, msg), bs, msg, k)
      {
        ScatteredReadBack(m, bs, msg);
      }
    } else if AlwaysReadsBack(bs, limit, k) {
      OneToOne(bs, limit, k);
      FreeOfClash(bs, k);
    }
  }

  lemma OneToOne(bs: seq<Buffer>, limit: nat, k: nat)
    requires AllInUserSpace(bs, |bs|, limit) && k <= Total(bs, |bs|) && AlwaysReadsBack(bs, limit, k)
    ensures NoClash(bs, |bs|, k)
  {
    var m: seq<Byte> := seq(limit, _ => 0);
    forall p, q | 0 <= p < q < k ensures Where(bs, |bs|, p) != Where(bs, |bs|, q) {
      var msg: seq<Byte> := seq(k, i => if i == p then 1 else 0);
      if Where(bs, |bs|, p) == Where(bs, |bs|, q) {
        ReadBackAgrees(Scattered(m, bs, |bs|, msg), bs, msg, p, q);
      }
    }
  }

  lemma ChunkIs(bs: seq<Buffer>, i: nat, msg: seq<Byte>)
    requires i < |bs|
    ensures var k, n := Min(Total(bs, i), |msg|), Min(Total(bs, i + 1), |msg|);
            k <= n && msg[..n] == msg[..k] + Chunk(bs, i, msg) && (k < |msg| || Chunk(bs, i, msg) == [])
  {
    var k := Min(Total(bs, i), |msg|);
    SplitAt(msg, k, k + Min(bs[i].size, |msg| - k));
  }

  lemma SplitAt(s: seq<Byte>, i: nat, j: nat)
    requires i <= j <= |s|
    ensures s[..j] == s[..i] + s[i..j]
  {}

  /** Nothing is left for later buffers once the first i have taken the whole message. */
  lemma {:induction false} NothingLeft(m: seq<Byte>, bs: seq<Buffer>, n: nat, msg: seq<Byte>, i: nat)
    requires i <= n <= |bs| && AllInUserSpace(bs, n, |m|) && |msg| <= Total(bs, i)
    ensures Scattered(m, bs, n, msg) == Scattered(m, bs, i, msg)
  {
    if i < n {
      NothingLeft(m, bs, n - 1, msg, i);
      TotalGrows(bs, i, n - 1);
      ChunkIs(bs, n - 1, msg);
      WriteNothing(Scattered(m, bs, n - 1, msg), bs[n - 1].addr);
    }
  }

  lemma WriteNothing(m: seq<Byte>, addr: nat)
    requires addr <= |m|
    ensures Write(m, addr, []) == m
  {}

  /** One more buffer is copied behind what has been gathered. */
  lemma GatheredMore(m: seq<Byte>, bs: seq<Buffer>, i: nat, text: seq<Byte>, size: nat)
    requires i < |bs| && AllInUserSpace(bs, i + 1, |m|) && size + bs[i].size <= |text| && text[..size] == Contents(m, bs, i)
    ensures Write(text, size, Slice(m, bs[i]))[..size + bs[i].size] == Contents(m, bs, i + 1)
  {
    var r, bytes := Write(text, size, Slice(m, bs[i])), Slice(m, bs[i]);
    assert r[..size] == text[..size];
    assert r[size..size + |bytes|] == bytes;
    assert r[..size + |bytes|] == r[..size] + r[size..size + |bytes|];
  }

  // ---- The kernel's copies

  class AddressSpace {
    const bytes: array<Byte>

    constructor (bytes: array<Byte>)
      ensures this.bytes == bytes
    {
      this.bytes := bytes;
    }
  }

  datatype Size = Invalid | Usable(size: nat)

  predicate ReceiveBuffersOk(bs: seq<Buffer>, limit: nat) {
    && |bs| <= MAX_BUFFERS_IN_ARRAY && AllInUserSpace(bs, |bs|, limit)
    && forall i :: 0 <= i < |bs| ==> bs[i].size <= MAX_BUFFER_SIZE
  }

  /**
   * Check the receive buffers and add up their sizes: the total, or the largest
   * message size if that is smaller.
   */
  method ReceiveBuffersSize(bs: seq<Buffer>, limit: nat) returns (r: Size)
    ensures r.Usable? <==> ReceiveBuffersOk(bs, limit)
    ensures r.Usable? ==> r.size == Min(Total(bs, |bs|), MAX_MESSAGE_SIZE)
  {
    if |bs| > MAX_BUFFERS_IN_ARRAY {
      return Invalid;
    }
    var total := 0;
    for i := 0 to |bs|
      invariant total == Min(Total(bs, i), MAX_MESSAGE_SIZE)
      invariant forall j :: 0 <= j < i ==> InUserSpace(bs[j], limit) && bs[j].size <= MAX_BUFFER_SIZE
    {
      if bs[i].size > MAX_BUFFER_SIZE {
        return Invalid;
      }
      if !InUserSpace(bs[i], limit) {
        return Invalid;
      }
      total := total + bs[i].size;
      if total > MAX_MESSAGE_SIZE {
        total := MAX_MESSAGE_SIZE;
      }
    }
    return Usable(total);
  }

  method Copy(from: array<Byte>, start: nat, to: array<Byte>, at: nat, n: nat)
    requires start + n <= from.Length && at + n <= to.Length && from != to
    modifies to
    ensures to[..] == Write(old(to[..]), at, from[start..start + n])
  {
    for i := 0 to n
      invariant forall k :: 0 <= k < to.Length ==> to[k] == if at <= k < at + i then from[start + k - at] else old(to[k])
    {
      to[at + i] := from[start + i];
    }
  }

  class Thread {
    const buffer: array<Byte>
    var size: nat

    constructor ()
      ensures Valid() && fresh(buffer)
    {
      buffer := new Byte[MAX_MESSAGE_SIZE];
      size := 0;
    }

    predicate Valid()
      reads this
    {
      buffer.Length == MAX_MESSAGE_SIZE && size <= MAX_MESSAGE_SIZE
    }

    function Text(): seq<Byte>
      requires Valid()
      reads this, buffer
    {
      buffer[..size]
    }

    /** Copy a message from user space into the kernel; it succeeds exactly if the buffers are good and hold no more than a message. */
    method Gather(space: AddressSpace, bs: seq<Buffer>) returns (ok: bool)
      requires buffer.Length == MAX_MESSAGE_SIZE && space.bytes != buffer
      modifies this, buffer
      ensures Valid()
      ensures ok <==>
                |bs| <= MAX_BUFFERS_IN_ARRAY && AllInUserSpace(bs, |bs|, space.bytes.Length) && Total(bs, |bs|) <= MAX_MESSAGE_SIZE
      ensures ok ==> Text() == Contents(space.bytes[..], bs, |bs|)
    {
      size := 0;
      if |bs| > MAX_BUFFERS_IN_ARRAY {
        return false;
      }
      var i := 0;
      while i < |bs|
        invariant i <= |bs| && Valid() && AllInUserSpace(bs, i, space.bytes.Length)
        invariant Text() == Contents(space.bytes[..], bs, i)
      {
        TotalGrows(bs, i + 1, |bs|);
        var more := GatherNext(space, bs, i);
        if !more {
          return false;
        }
        i := i + 1;
      }
      return true;
    }

    method GatherNext(space: AddressSpace, bs: seq<Buffer>, i: nat) returns (ok: bool)
      requires Valid() && space.bytes != buffer && i < |bs| && AllInUserSpace(bs, i, space.bytes.Length)
      requires Text() == Contents(space.bytes[..], bs, i)
      modifies this`size, buffer
      ensures Valid()
      ensures ok <==> InUserSpace(bs[i], space.bytes.Length) && Total(bs, i + 1) <= MAX_MESSAGE_SIZE
      ensures ok ==> Text() == Contents(space.bytes[..], bs, i + 1)
    {
      if !InUserSpace(bs[i], space.bytes.Length) {
        return false;
      }
      var remaining := MAX_MESSAGE_SIZE - size;
      if bs[i].size > remaining {
        return false;
      }
      GatheredMore(space.bytes[..], bs, i, buffer[..], size);
      assert space.bytes[bs[i].addr..bs[i].addr + bs[i].size] == Slice(space.bytes[..], bs[i]);
      Copy(space.bytes, bs[i].addr, buffer, size, bs[i].size);
      size := size + bs[i].size;
      return true;
    }

    /**
     * Copy the message out to user space buffers, in order, until all of it is
     * written. Only the buffers that are needed are checked.
     */
    method Scatter(space: AddressSpace, bs: seq<Buffer>) returns (ok: bool)
      requires Valid() && space.bytes != buffer
      modifies space.bytes
      ensures ok && AllInUserSpace(bs, |bs|, space.bytes.Length) ==>
                space.bytes[..] == Scattered(old(space.bytes[..]), bs, |bs|, Text())
      ensures ok <==> forall i :: 0 <= i < |bs| && Total(bs, i) < size ==> InUserSpace(bs[i], space.bytes.Length)
    {
      ghost var m := space.bytes[..];
      var position := 0;
      var i := 0;
      while i < |bs|
        invariant i <= |bs| && position == Min(Total(bs, i), size) && AllInUserSpace(bs, i, space.bytes.Length)
        invariant space.bytes[..] == Scattered(m, bs, i, Text())
      {
        var remaining := size - position;
        if remaining == 0 {
          break;
        }
        if !InUserSpace(bs[i], space.bytes.Length) {
          return false;
        }
        var n := if remaining < bs[i].size then remaining else bs[i].size;
        assert buffer[position..position + n] == Chunk(bs, i, Text());
        Copy(buffer, position, space.bytes, bs[i].addr, n);
        position := position + n;
        i := i + 1;
      }
      forall j | i <= j < |bs| ensures Total(bs, j) >= Total(bs, i) {
        TotalGrows(bs, i, j);
      }
      if i < |bs| && AllInUserSpace(bs, |bs|, space.bytes.Length) {
        NothingLeft(m, bs, |bs|, Text(), i);
      }
      return true;
    }
  }

  /** How a transfer to a receiver, or back to the sender, ends. */
  datatype Outcome = TooBig | BadBuffer | Delivered(size: nat)

  /** Hand a gathered message over if it fits what the receive buffers were found to hold. */
  method Deliver(from: Thread, capacity: nat, space: AddressSpace, bs: seq<Buffer>) returns (r: Outcome)
    requires from.Valid() && space.bytes != from.buffer
    modifies space.bytes
    ensures r == TooBig <==> from.size > capacity
    ensures r == BadBuffer ==> !AllInUserSpace(bs, |bs|, space.bytes.Length)
    ensures r.Delivered? ==> r.size == from.size
    ensures r.Delivered? && AllInUserSpace(bs, |bs|, space.bytes.Length) ==>
              space.bytes[..] == Scattered(old(space.bytes[..]), bs, |bs|, from.Text())
    ensures r == TooBig ==> space.bytes[..] == old(space.bytes[..])
  {
    if from.size > capacity {
      return TooBig;
    }
    var ok := from.Scatter(space, bs);
    return if ok then Delivered(from.size) else BadBuffer;
  }

  /**
   * A whole transfer. It is refused exactly if a check fails; otherwise the
   * receiver's buffers hold, in order, what the sender's buffers held.
   */
  method Transfer(source: AddressSpace, sendBuffers: seq<Buffer>, t: Thread, target: AddressSpace, recvBuffers: seq<Buffer>)
    returns (r: Outcome, ghost text: seq<Byte>)
    requires t.Valid() && source.bytes != t.buffer && target.bytes != t.buffer
    modifies t, t.buffer, target.bytes
    ensures r.Delivered? <==>
              && ReceiveBuffersOk(recvBuffers, target.bytes.Length)
              && |sendBuffers| <= MAX_BUFFERS_IN_ARRAY && AllInUserSpace(sendBuffers, |sendBuffers|, source.bytes.Length)
              && Total(sendBuffers, |sendBuffers|) <= MAX_MESSAGE_SIZE
              && Total(sendBuffers, |sendBuffers|) <= Total(recvBuffers, |recvBuffers|)
    ensures r.Delivered? ==>
              && text == old(Contents(source.bytes[..], sendBuffers, |sendBuffers|)) && r.size == |text|
              && target.bytes[..] == Scattered(old(target.bytes[..]), recvBuffers, |recvBuffers|, text)
    ensures r.Delivered? && ReachedApart(recvBuffers, r.size) ==>
              && |text| <= Total(recvBuffers, |recvBuffers|)
              && Contents(target.bytes[..], recvBuffers, |recvBuffers|)[..|text|] == text
  {
    text := [];
    var capacity := ReceiveBuffersSize(recvBuffers, target.bytes.Length);
    if capacity.Invalid? {
      return BadBuffer, [];
    }
    var gathered := t.Gather(source, sendBuffers);
    if !gathered {
      return BadBuffer, [];
    }
    text := t.Text();
    r := Deliver(t, capacity.size, target, recvBuffers);
    if r.Delivered? && ReachedApart(recvBuffers, |text|) {
      ScatteredReadBack(old(target.bytes[..]), recvBuffers, text);
    }
  }

  /** With overlapping receive buffers the first bytes may be overwritten by later ones. */
  lemma OverlapExample()
    ensures var m: seq<Byte> := [0, 0];
            var bs := [Buffer(0, 1), Buffer(0, 1)];
            !ReachedApart(bs, 2) && AllInUserSpace(bs, 2, 2) && Contents(Scattered(m, bs, 2, [1, 2]), bs, 2) == [2, 2]
  {
    var m: seq<Byte> := [0, 0];
    var bs := [Buffer(0, 1), Buffer(0, 1)];
    var msg: seq<Byte> := [1, 2];
    assert Total(bs, 1) == 1;
    assert !Apart(0, Reach(bs, 0, 2), 0, Reach(bs, 1, 2));
    assert Scattered(m, bs, 1, msg) == Write(m, 0, [1]) == [1, 0];
    assert Scattered(m, bs, 2, msg) == Write([1, 0], 0, [2]) == [2, 0];
    assert Contents([2, 0], bs, 1) == [2];
    assert Contents([2, 0], bs, 2) == [2, 2];
  }
}
