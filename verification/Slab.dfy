/**
 * The kernel object allocator. Memory is a map from addresses to words; slab
 * headers sit at the end of their page and are linked into three lists. The
 * first header of a list has an arbitrary `prev`.
 */
module Slab {

  import opened SlabGeometry

  type Addr = nat

  datatype Header = Header(prev: Addr, next: Addr, count: nat, colour: nat, free: Addr)

  const NULL: Addr := 0
  const DEFAULT_WORKING_SET := 2

  ghost predicate NoDup<T>(s: seq<T>) {
    forall i, j :: 0 <= i < j < |s| ==> s[i] != s[j]
  }

  // ---- Lists of slabs

  ghost function At(s: seq<Addr>, i: nat): Addr {
    if i < |s| then s[i] else NULL
  }

  /** `s` is the list that starts at `head`; nothing is said of the first slab's `prev`. */
  ghost predicate Linked(m: map<Addr, Header>, head: Addr, s: seq<Addr>) {
    && head == At(s, 0) && NoDup(s) && NULL !in s && (forall h <- s :: h in m)
    && forall i {:trigger LinkedAt(m, s, i)} :: 0 <= i < |s| ==> LinkedAt(m, s, i)
  }

  ghost predicate LinkedAt(m: map<Addr, Header>, s: seq<Addr>, i: nat)
    requires i < |s| && forall h <- s :: h in m
  {
    m[s[i]].next == At(s, i + 1) && (i > 0 ==> m[s[i]].prev == s[i - 1])
  }

  /** Nothing but the links of some slabs has changed. */
  ghost predicate Relinked(m: map<Addr, Header>, m1: map<Addr, Header>, s: seq<Addr>) {
    && m1.Keys == m.Keys
    && forall h <- m :: m1[h] == m[h].(prev := m1[h].prev, next := m1[h].next) && (h !in s ==> m1[h] == m[h])
  }

  lemma OtherListKept(m: map<Addr, Header>, m1: map<Addr, Header>, s: seq<Addr>, head: Addr, t: seq<Addr>)
    requires Linked(m, head, t) && Relinked(m, m1, s) && forall h <- t :: h !in s
    ensures Linked(m1, head, t)
  {
    forall i | 0 <= i < |t| ensures LinkedAt(m1, t, i) {
      assert LinkedAt(m, t, i);
    }
  }

  lemma SameLinksKept(m: map<Addr, Header>, m1: map<Addr, Header>, head: Addr, s: seq<Addr>)
    requires Linked(m, head, s) && m1.Keys == m.Keys
    requires forall h <- m :: m1[h].prev == m[h].prev && m1[h].next == m[h].next
    ensures Linked(m1, head, s)
  {
    forall i | 0 <= i < |s| ensures LinkedAt(m1, s, i) {
      assert LinkedAt(m, s, i);
    }
  }

  function SetPrev(m: map<Addr, Header>, h: Addr, prev: Addr): map<Addr, Header>
    requires h == NULL || h in m
  {
    if h == NULL then m else m[h := m[h].(prev := prev)]
  }

  /** Link a slab in at the front. */
  function PushFront(m: map<Addr, Header>, head: Addr, x: Addr): map<Addr, Header>
    requires x in m && (head == NULL || head in m)
  {
    SetPrev(m[x := m[x].(next := head)], head, x)
  }

  lemma PushFrontLinks(m: map<Addr, Header>, head: Addr, s: seq<Addr>, x: Addr)
    requires Linked(m, head, s) && x in m && x != NULL && x !in s
    ensures Linked(PushFront(m, head, x), x, [x] + s) && Relinked(m, PushFront(m, head, x), [x] + s)
  {
    var m1 := PushFront(m, head, x);
    var t := [x] + s;
    forall i | 0 <= i < |t| ensures LinkedAt(m1, t, i) {
      assert i > 0 ==> t[i] == s[i - 1] && LinkedAt(m, s, i - 1);
    }
  }

  /** Unlink a slab, given the address of its header only. */
  function Unlink(m: map<Addr, Header>, head: Addr, x: Addr): map<Addr, Header>
    requires x in m && (head != x ==> m[x].prev in m) && (m[x].next == NULL || m[x].next in m)
  {
    var m1 := if head == x then m else m[m[x].prev := m[m[x].prev].(next := m[x].next)];
    SetPrev(m1, m[x].next, m[x].prev)
  }

  function HeadAfter(m: map<Addr, Header>, head: Addr, x: Addr): Addr
    requires x in m
  {
    if head == x then m[x].next else head
  }

  ghost function Without(s: seq<Addr>, i: nat): seq<Addr>
    requires i < |s|
  {
    s[..i] + s[i + 1..]
  }

  lemma UnlinkLinks(m: map<Addr, Header>, head: Addr, s: seq<Addr>, i: nat)
    requires Linked(m, head, s) && i < |s|
    ensures var x := s[i];
            && (head != x ==> m[x].prev in m) && (m[x].next == NULL || m[x].next in m)
            && Linked(Unlink(m, head, x), HeadAfter(m, head, x), Without(s, i))
            && Relinked(m, Unlink(m, head, x), s)
  {
    UnlinkBypasses(m, s, i);
    assert LinkedAt(m, s, 0);
    BypassedLinks(m, Unlink(m, head, s[i]), s, i);
    assert HeadAfter(m, head, s[i]) == At(Without(s, i), 0);
  }

  lemma UnlinkBypasses(m: map<Addr, Header>, s: seq<Addr>, i: nat)
    requires i < |s| && Linked(m, s[0], s)
    ensures var x := s[i];
            && (s[0] != x ==> m[x].prev in m) && (m[x].next == NULL || m[x].next in m)
            && Bypassed(m, Unlink(m, s[0], x), s, i) && Relinked(m, Unlink(m, s[0], x), s)
  {
    assert LinkedAt(m, s, i);
  }

  /** The neighbours of the i-th slab point past it. */
  ghost predicate Bypassed(m: map<Addr, Header>, m1: map<Addr, Header>, s: seq<Addr>, i: nat)
    requires i < |s| && forall h <- s :: h in m
  {
    && m1.Keys == m.Keys
    && (forall h <- m :: m1[h].next == (if i > 0 && h == s[i - 1] then m[s[i]].next else m[h].next))
    && (forall h <- m :: m1[h].prev == (if i + 1 < |s| && h == s[i + 1] then m[s[i]].prev else m[h].prev))
  }

  lemma BypassedLinks(m: map<Addr, Header>, m1: map<Addr, Header>, s: seq<Addr>, i: nat)
    requires i < |s| && Linked(m, s[0], s) && Bypassed(m, m1, s, i)
    ensures Linked(m1, At(Without(s, i), 0), Without(s, i))
  {
    var t := Without(s, i);
    forall j | 0 <= j < |t| ensures LinkedAt(m1, t, j) {
      assert t[j] == if j < i then s[j] else s[j + 1];
      assert LinkedAt(m, s, i) && LinkedAt(m, s, if j < i then j else j + 1);
    }
  }

  // ---- Memory

  const POISON_ALIVE := 0x0BADCAFE
  const POISON_DEAD := 0xDEADBEEF
  const RED_ZONE := 0x5711600D

  type Memory = map<Addr, nat>

  function Read(mem: Memory, a: Addr): nat {
    if a in mem then mem[a] else 0
  }

  /** The n words from address b. */
  function Words(mem: Memory, b: Addr, n: nat): seq<nat> {
    seq(n, i requires 0 <= i < n => Read(mem, b + i * WORD))
  }

  ghost predicate SameOutside(mem: Memory, mem1: Memory, lo: Addr, hi: Addr) {
    forall a: Addr {:trigger Read(mem1, a)} :: a < lo || a >= hi ==> Read(mem1, a) == Read(mem, a)
  }

  lemma WordsSame(mem: Memory, mem1: Memory, lo: Addr, hi: Addr, b: Addr, n: nat)
    requires SameOutside(mem, mem1, lo, hi) && (b + n * WORD <= lo || hi <= b)
    ensures Words(mem1, b, n) == Words(mem, b, n)
  {}

  lemma WordsUpdated(mem: Memory, b: Addr, n: nat, i: nat, v: nat)
    requires i < n
    ensures Words(mem[b + i * WORD := v], b, n) == Words(mem, b, n)[i := v]
  {}

  lemma WriteInside(mem0: Memory, mem: Memory, lo: Addr, hi: Addr, a: Addr, v: nat, hi1: Addr)
    requires SameOutside(mem0, mem, lo, hi) && lo <= a < hi1 && hi <= hi1
    ensures SameOutside(mem0, mem[a := v], lo, hi1)
  {
    forall x: Addr | x < lo || x >= hi1 ensures Read(mem[a := v], x) == Read(mem0, x) {
      assert Read(mem, x) == Read(mem0, x);
    }
  }

  lemma SameOutsideThen(mem0: Memory, mem1: Memory, mem2: Memory, lo1: Addr, hi1: Addr, lo2: Addr, hi2: Addr, lo: Addr, hi: Addr)
    requires SameOutside(mem0, mem1, lo1, hi1) && SameOutside(mem1, mem2, lo2, hi2)
    requires lo <= lo1 && lo <= lo2 && hi1 <= hi && hi2 <= hi
    ensures SameOutside(mem0, mem2, lo, hi)
  {
    forall x: Addr | x < lo || x >= hi ensures Read(mem2, x) == Read(mem0, x) {
      assert Read(mem1, x) == Read(mem0, x);
    }
  }

  // ---- A cache and its slabs

  datatype Config = Config(
    g: Geometry,
    perSlab: nat,                     // buffers on a slab
    flags: Flags,
    hasCtor: bool,
    ctor: seq<nat> -> seq<nat>,
    hasDtor: bool,
    dtor: seq<nat> -> seq<nat>,
    constructed: seq<nat> -> bool     // the state the constructor sets up and clients give objects back in
  )

  /** An object whose last word has been overwritten. */
  function LastLost(w: seq<nat>, v: nat): seq<nat>
    requires w != []
  {
    w[|w| - 1 := v]
  }

  ghost predicate Insensitive(constructed: seq<nat> -> bool, n: nat) {
    forall w: seq<nat>, v: nat :: |w| == n > 0 && constructed(w) ==> constructed(LastLost(w, v))
  }

  /**
   * The geometry fits a slab and leaves room for the link word as the flags ask;
   * the client vouches that objects of a compact cache survive losing their last word.
   */
  ghost predicate ConfigOk(cf: Config) {
    Layout(cf.g, cf.perSlab) && Roomy(cf) && Cooperative(cf)
  }

  /** The link word and the red zone word are where they do no harm. */
  ghost predicate Roomy(cf: Config) {
    && cf.g.objSize == ObjWords(cf) * WORD && ObjWords(cf) > 0
    && cf.g.objSize - WORD <= cf.g.bufctlOffset == cf.g.allocSize - WORD
    && (cf.g.bufctlOffset < cf.g.objSize ==> cf.g.bufctlOffset == cf.g.objSize - WORD)
    && (cf.flags.poison || cf.flags.redZone || (cf.hasCtor && !cf.flags.compact) ==> cf.g.objSize <= cf.g.bufctlOffset)
    && (cf.flags.poison && cf.flags.redZone ==> cf.g.objSize + WORD <= cf.g.bufctlOffset)
  }

  /** What the client's functions must do. */
  ghost predicate Cooperative(cf: Config) {
    && (forall w {:trigger cf.ctor(w)} :: |w| == ObjWords(cf) ==> |cf.ctor(w)| == |w| && cf.constructed(cf.ctor(w)))
    && (forall w {:trigger cf.dtor(w)} :: |w| == ObjWords(cf) ==> |cf.dtor(w)| == |w|)
    && (cf.hasCtor && cf.flags.compact ==> Insensitive(cf.constructed, ObjWords(cf)))
  }

  function ObjWords(cf: Config): nat {
    cf.g.objSize / WORD
  }

  /** Every cache the kernel sets up is configured well, if its buffers fit a slab and the client cooperates. */
  lemma CacheInitOk(cf: Config, size: nat, alignment: nat, dcache: nat)
    requires size >= WORD && cf.g == CacheInit(size, alignment, cf.flags, cf.hasCtor, dcache)
    requires cf.g.allocSize <= AVAILABLE && cf.perSlab == PerSlab(cf.g.allocSize) && Cooperative(cf)
    ensures ConfigOk(cf)
  {
    CacheInitSound(size, alignment, cf.flags, cf.hasCtor, dcache);
    SoundLayout(cf.g);
    LinkOutsideObject(size, alignment, cf.flags, cf.hasCtor, dcache);
  }

  /** An address where the header of a slab can be. */
  ghost predicate Home(h: Addr) {
    h >= SLAB_SIZE + AVAILABLE && (h - AVAILABLE) % SLAB_SIZE == 0
  }

  function HeaderOf(a: Addr): Addr {
    a - a % SLAB_SIZE + AVAILABLE
  }

  function Buffer(g: Geometry, h: Addr, colour: nat, k: nat): Addr
    requires h >= AVAILABLE
  {
    h - AVAILABLE + BufferAt(g, colour, k)
  }

  function Link(g: Geometry, h: Addr, colour: nat, k: nat): Addr
    requires h >= AVAILABLE
  {
    Buffer(g, h, colour, k) + g.bufctlOffset
  }

  lemma InPage(cf: Config, h: Addr, colour: nat, k: nat)
    requires ConfigOk(cf) && Home(h) && IsColour(cf.g, colour) && k < cf.perSlab
    ensures h - AVAILABLE <= Buffer(cf.g, h, colour, k) && Buffer(cf.g, h, colour, k) + cf.g.allocSize <= h
    ensures HeaderOf(Buffer(cf.g, h, colour, k)) == h
  {
    assert FitsAt(cf.g, cf.perSlab, colour, k);
    FoundHeader(h, Buffer(cf.g, h, colour, k));
  }

  lemma FoundHeader(h: Addr, a: Addr)
    requires Home(h) && h - AVAILABLE <= a < h - AVAILABLE + SLAB_SIZE
    ensures HeaderOf(a) == h
  {}

  /** Two different buffers of a cache do not overlap. */
  lemma Apart(cf: Config, h: Addr, colour: nat, k: nat, h1: Addr, colour1: nat, k1: nat)
    requires ConfigOk(cf) && Home(h) && IsColour(cf.g, colour) && k < cf.perSlab
    requires Home(h1) && IsColour(cf.g, colour1) && k1 < cf.perSlab
    requires h != h1 || (colour == colour1 && k != k1)
    ensures var b, b1 := Buffer(cf.g, h, colour, k), Buffer(cf.g, h1, colour1, k1);
            b + cf.g.allocSize <= b1 || b1 + cf.g.allocSize <= b
  {
    InPage(cf, h, colour, k);
    InPage(cf, h1, colour1, k1);
    if h == h1 && k < k1 {
      BuffersApart(cf.g, colour, k, k1);
    } else if h == h1 {
      BuffersApart(cf.g, colour, k1, k);
    } else {
      PagesApart(h, h1);
    }
  }

  lemma PagesApart(h: Addr, h1: Addr)
    requires Home(h) && Home(h1) && h != h1
    ensures h + SLAB_SIZE <= h1 || h1 + SLAB_SIZE <= h
  {}

  ghost function LinkTo(g: Geometry, h: Addr, colour: nat, c: seq<nat>, i: nat): Addr
    requires h >= AVAILABLE
  {
    if i < |c| then Link(g, h, colour, c[i]) else NULL
  }

  /** What is in a free buffer: poison, or an object in its constructed state. */
  ghost predicate FreeOk(cf: Config, mem: Memory, b: Addr) {
    if cf.flags.poison then
      && (forall i :: 0 <= i < ObjWords(cf) ==> Words(mem, b, ObjWords(cf))[i] == POISON_DEAD)
      && (cf.flags.redZone ==> Read(mem, b + cf.g.objSize) == RED_ZONE)
    else
      cf.hasCtor ==> cf.constructed(Words(mem, b, ObjWords(cf)))
  }

  /** Every buffer of the slab is either free or allocated. */
  ghost predicate Partition(n: nat, c: seq<nat>, a: set<nat>) {
    NoDup(c) && (forall k :: 0 <= k < n ==> (k in a <==> k !in c)) && (forall k <- c :: k < n) && (forall k <- a :: k < n)
  }

  /** The free list of a slab visits the buffers c, in this order. */
  ghost predicate Chained(cf: Config, mem: Memory, h: Addr, hd: Header, c: seq<nat>)
    requires h >= AVAILABLE
  {
    && hd.free == LinkTo(cf.g, h, hd.colour, c, 0)
    && forall i :: 0 <= i < |c| ==> Read(mem, Link(cf.g, h, hd.colour, c[i])) == LinkTo(cf.g, h, hd.colour, c, i + 1)
  }

  ghost predicate SlabOk(cf: Config, mem: Memory, h: Addr, hd: Header, c: seq<nat>, a: set<nat>)
    requires ConfigOk(cf)
  {
    && Home(h) && IsColour(cf.g, hd.colour) && Partition(cf.perSlab, c, a) && |a| == hd.count
    && Chained(cf, mem, h, hd, c)
    && forall k <- c :: FreeOk(cf, mem, Buffer(cf.g, h, hd.colour, k))
  }

  /** A free buffer does not notice writes outside it. */
  lemma FreeSame(cf: Config, mem: Memory, mem1: Memory, lo: Addr, hi: Addr, b: Addr)
    requires ConfigOk(cf) && FreeOk(cf, mem, b) && SameOutside(mem, mem1, lo, hi)
    requires b + cf.g.allocSize <= lo || hi <= b
    ensures FreeOk(cf, mem1, b) && Read(mem1, b + cf.g.bufctlOffset) == Read(mem, b + cf.g.bufctlOffset)
  {
    WordsSame(mem, mem1, lo, hi, b, ObjWords(cf));
  }

  /** Writes outside its free buffers do not matter to a slab. */
  lemma SlabSameOutside(cf: Config, mem: Memory, mem1: Memory, h: Addr, hd: Header, c: seq<nat>, a: set<nat>, lo: Addr, hi: Addr)
    requires ConfigOk(cf) && SlabOk(cf, mem, h, hd, c, a) && SameOutside(mem, mem1, lo, hi)
    requires forall k <- c :: Buffer(cf.g, h, hd.colour, k) + cf.g.allocSize <= lo || hi <= Buffer(cf.g, h, hd.colour, k)
    ensures SlabOk(cf, mem1, h, hd, c, a)
  {
    forall k <- c
      ensures FreeOk(cf, mem1, Buffer(cf.g, h, hd.colour, k))
      ensures Read(mem1, Link(cf.g, h, hd.colour, k)) == Read(mem, Link(cf.g, h, hd.colour, k))
    {
      FreeSame(cf, mem, mem1, lo, hi, Buffer(cf.g, h, hd.colour, k));
    }
  }

  /** Writes inside one buffer matter to no slab where that buffer is not free. */
  lemma SlabSame(cf: Config, mem: Memory, mem1: Memory, h: Addr, hd: Header, c: seq<nat>, a: set<nat>,
                 h1: Addr, colour1: nat, k1: nat)
    requires ConfigOk(cf) && SlabOk(cf, mem, h, hd, c, a)
    requires Home(h1) && IsColour(cf.g, colour1) && k1 < cf.perSlab
    requires h == h1 ==> hd.colour == colour1 && k1 !in c
    requires var b := Buffer(cf.g, h1, colour1, k1); SameOutside(mem, mem1, b, b + cf.g.allocSize)
    ensures SlabOk(cf, mem1, h, hd, c, a)
  {
    var b1 := Buffer(cf.g, h1, colour1, k1);
    forall k <- c ensures Buffer(cf.g, h, hd.colour, k) + cf.g.allocSize <= b1 || b1 + cf.g.allocSize <= Buffer(cf.g, h, hd.colour, k) {
      Apart(cf, h, hd.colour, k, h1, colour1, k1);
    }
    SlabSameOutside(cf, mem, mem1, h, hd, c, a, b1, b1 + cf.g.allocSize);
  }

  lemma PopPartition(n: nat, c: seq<nat>, a: set<nat>)
    requires Partition(n, c, a) && c != []
    ensures Partition(n, c[1..], a + {c[0]}) && |a + {c[0]}| == |a| + 1
  {
    assert forall k :: k in c <==> k == c[0] || k in c[1..];
    assert c[0] in c;
  }

  /** Take the first free buffer off the list. */
  lemma PopKeeps(cf: Config, mem: Memory, h: Addr, hd: Header, c: seq<nat>, a: set<nat>)
    requires ConfigOk(cf) && SlabOk(cf, mem, h, hd, c, a) && c != []
    ensures SlabOk(cf, mem, h, hd.(free := Read(mem, hd.free), count := hd.count + 1), c[1..], a + {c[0]})
  {
    PopPartition(cf.perSlab, c, a);
    assert Read(mem, hd.free) == LinkTo(cf.g, h, hd.colour, c, 1) == LinkTo(cf.g, h, hd.colour, c[1..], 0);
    forall i | 0 <= i < |c[1..]|
      ensures Read(mem, Link(cf.g, h, hd.colour, c[1..][i])) == LinkTo(cf.g, h, hd.colour, c[1..], i + 1)
    {
      assert c[1..][i] == c[i + 1];
      assert LinkTo(cf.g, h, hd.colour, c[1..], i + 1) == LinkTo(cf.g, h, hd.colour, c, i + 2);
    }
  }

  /** Put a buffer back at the front of the list. */
  lemma PushKeeps(cf: Config, mem: Memory, h: Addr, hd: Header, c: seq<nat>, a: set<nat>, k: nat)
    requires ConfigOk(cf) && SlabOk(cf, mem, h, hd, c, a) && k in a
    requires Read(mem, Link(cf.g, h, hd.colour, k)) == hd.free && FreeOk(cf, mem, Buffer(cf.g, h, hd.colour, k))
    ensures hd.count > 0
    ensures SlabOk(cf, mem, h, hd.(free := Link(cf.g, h, hd.colour, k), count := hd.count - 1), [k] + c, a - {k})
  {
    var d := [k] + c;
    assert |a - {k}| == |a| - 1;
    assert Partition(cf.perSlab, d, a - {k}) by {
      assert forall j :: j in d <==> j == k || j in c;
    }
    forall i | 0 <= i < |d|
      ensures Read(mem, Link(cf.g, h, hd.colour, d[i])) == LinkTo(cf.g, h, hd.colour, d, i + 1)
    {
      if i > 0 {
        assert d[i] == c[i - 1];
        assert LinkTo(cf.g, h, hd.colour, d, i + 1) == LinkTo(cf.g, h, hd.colour, c, i);
      } else {
        assert LinkTo(cf.g, h, hd.colour, d, 1) == LinkTo(cf.g, h, hd.colour, c, 0);
      }
    }
  }

  /** The slab of an allocated buffer, found by rounding its address. */
  lemma HomeOf(cf: Config, mem: Memory, m: map<Addr, Header>, chain: map<Addr, seq<nat>>, alive: map<Addr, set<nat>>,
               live: set<Addr>, b: Addr) returns (k: nat)
    requires ConfigOk(cf) && AllSlabs(cf, mem, m, chain, alive) && LiveOk(cf.g, m, alive, live) && b in live
    ensures var h := HeaderOf(b);
            && h in m && h >= AVAILABLE && k in alive[h] && b == Buffer(cf.g, h, m[h].colour, k)
            && m[h].count > 0 && b + cf.g.bufctlOffset == Link(cf.g, h, m[h].colour, k) && h != NULL && b != NULL
  {
    assert IsLive(cf.g, m, alive, b);
    var h := HeaderOf(b);
    k :| k in alive[h] && b == Buffer(cf.g, h, m[h].colour, k);
    assert SlabOk(cf, mem, h, m[h], chain[h], alive[h]);
    NonEmpty(alive[h], k);
  }

  lemma NonEmpty(s: set<nat>, k: nat)
    requires k in s
    ensures |s| > 0
  {}

  /** Allocated buffers overlap neither each other nor a slab header. */
  lemma LiveApart(cf: Config, mem: Memory, m: map<Addr, Header>, chain: map<Addr, seq<nat>>, alive: map<Addr, set<nat>>,
                  live: set<Addr>, b: Addr, b1: Addr)
    requires ConfigOk(cf) && AllSlabs(cf, mem, m, chain, alive) && LiveOk(cf.g, m, alive, live) && b in live && b1 in live
    ensures b != b1 ==> b + cf.g.allocSize <= b1 || b1 + cf.g.allocSize <= b
    ensures HeaderOf(b) - AVAILABLE <= b && b + cf.g.allocSize <= HeaderOf(b)
  {
    var k := HomeOf(cf, mem, m, chain, alive, live, b);
    var k1 := HomeOf(cf, mem, m, chain, alive, live, b1);
    var h, h1 := HeaderOf(b), HeaderOf(b1);
    assert SlabOk(cf, mem, h, m[h], chain[h], alive[h]) && SlabOk(cf, mem, h1, m[h1], chain[h1], alive[h1]);
    InPage(cf, h, m[h].colour, k);
    if b != b1 {
      Apart(cf, h, m[h].colour, k, h1, m[h1].colour, k1);
    }
  }

  // ---- A new slab

  ghost predicate CarvedAt(cf: Config, mem: Memory, h: Addr, colour: nat, j: nat, next: Addr)
    requires h >= AVAILABLE
  {
    FreeOk(cf, mem, Buffer(cf.g, h, colour, j)) && Read(mem, Link(cf.g, h, colour, j)) == next
  }

  /** The first k buffers are on the free list, each pointing to the next. */
  ghost predicate CarvedUpTo(cf: Config, mem: Memory, h: Addr, colour: nat, k: nat)
    requires h >= AVAILABLE
  {
    forall j {:trigger Carved(cf, mem, h, colour, j)} :: 0 <= j < k ==> Carved(cf, mem, h, colour, j)
  }

  ghost predicate Carved(cf: Config, mem: Memory, h: Addr, colour: nat, j: nat)
    requires h >= AVAILABLE
  {
    CarvedAt(cf, mem, h, colour, j, Link(cf.g, h, colour, j + 1))
  }

  /** Work on the k-th buffer does not disturb those before. */
  lemma CarvedKept(cf: Config, mem: Memory, mem1: Memory, h: Addr, colour: nat, k: nat)
    requires ConfigOk(cf) && Home(h) && IsColour(cf.g, colour) && k < cf.perSlab && CarvedUpTo(cf, mem, h, colour, k)
    requires var b := Buffer(cf.g, h, colour, k); SameOutside(mem, mem1, b, b + cf.g.allocSize)
    ensures CarvedUpTo(cf, mem1, h, colour, k)
  {
    var b := Buffer(cf.g, h, colour, k);
    forall j | 0 <= j < k ensures Carved(cf, mem1, h, colour, j) {
      assert Carved(cf, mem, h, colour, j);
      Apart(cf, h, colour, j, h, colour, k);
      FreeSame(cf, mem, mem1, b, b + cf.g.allocSize, Buffer(cf.g, h, colour, j));
    }
  }

  lemma NextLink(g: Geometry, h: Addr, colour: nat, k: nat)
    requires h >= AVAILABLE
    ensures Link(g, h, colour, k + 1) == Link(g, h, colour, k) + g.allocSize
  {
  }

  ghost function UpTo(n: nat): seq<nat> {
    seq(n, i => i)
  }

  lemma NewSlabOk(cf: Config, mem: Memory, h: Addr, hd: Header)
    requires ConfigOk(cf) && Home(h) && IsColour(cf.g, hd.colour) && cf.perSlab > 0
    requires hd.count == 0 && hd.free == Link(cf.g, h, hd.colour, 0)
    requires CarvedUpTo(cf, mem, h, hd.colour, cf.perSlab - 1) && CarvedAt(cf, mem, h, hd.colour, cf.perSlab - 1, NULL)
    ensures SlabOk(cf, mem, h, hd, UpTo(cf.perSlab), {})
  {
    var c := UpTo(cf.perSlab);
    UpToPartition(cf.perSlab);
    forall i | 0 <= i < |c|
      ensures Read(mem, Link(cf.g, h, hd.colour, c[i])) == LinkTo(cf.g, h, hd.colour, c, i + 1)
      ensures FreeOk(cf, mem, Buffer(cf.g, h, hd.colour, c[i]))
    {
      assert i + 1 < |c| ==> Carved(cf, mem, h, hd.colour, i);
    }
  }

  lemma UpToPartition(n: nat)
    ensures Partition(n, UpTo(n), {})
  {
    forall k | 0 <= k < n ensures k in UpTo(n) {
      assert UpTo(n)[k] == k;
    }
  }

  // ---- All slabs of a cache

  ghost predicate AllSlabs(cf: Config, mem: Memory, m: map<Addr, Header>, chain: map<Addr, seq<nat>>, alive: map<Addr, set<nat>>)
    requires ConfigOk(cf)
  {
    && m.Keys == chain.Keys == alive.Keys
    && forall h {:trigger SlabOk(cf, mem, h, m[h], chain[h], alive[h])} :: h in m ==> SlabOk(cf, mem, h, m[h], chain[h], alive[h])
  }

  /** b is the address of an allocated buffer. */
  ghost predicate IsLive(g: Geometry, m: map<Addr, Header>, alive: map<Addr, set<nat>>, b: Addr) {
    var h := HeaderOf(b);
    h in m && h in alive && exists k <- alive[h] :: b == Buffer(g, h, m[h].colour, k)
  }

  ghost predicate LiveOk(g: Geometry, m: map<Addr, Header>, alive: map<Addr, set<nat>>, live: set<Addr>) {
    forall b {:trigger IsLive(g, m, alive, b)} :: b in live <==> IsLive(g, m, alive, b)
  }

  /** The contents of the buffers in a set have not changed. */
  ghost predicate Untouched(g: Geometry, mem: Memory, mem1: Memory, live: set<Addr>) {
    forall b <- live :: SameBuffer(g, mem, mem1, b)
  }

  ghost predicate SameBuffer(g: Geometry, mem: Memory, mem1: Memory, b: Addr) {
    forall a: Addr :: b <= a < b + g.allocSize ==> Read(mem1, a) == Read(mem, a)
  }

  lemma UntouchedThen(g: Geometry, mem: Memory, mem1: Memory, mem2: Memory, live: set<Addr>)
    requires Untouched(g, mem, mem1, live) && Untouched(g, mem1, mem2, live)
    ensures Untouched(g, mem, mem2, live)
  {
    forall b | b in live ensures SameBuffer(g, mem, mem2, b) {
      assert SameBuffer(g, mem, mem1, b) && SameBuffer(g, mem1, mem2, b);
      assert forall a: Addr :: b <= a < b + g.allocSize ==> Read(mem1, a) == Read(mem, a);
    }
  }

  /** Each slab other than x is on the list its occupancy asks for. */
  ghost predicate Sorted(m: map<Addr, Header>, e: seq<Addr>, p: seq<Addr>, f: seq<Addr>, x: Addr) {
    forall h {:trigger SortedAt(m, e, p, f, h)} :: h in m && h != x ==> SortedAt(m, e, p, f, h)
  }

  /** The slab x is on the list its occupancy asks for. */
  ghost predicate SortedAt(m: map<Addr, Header>, e: seq<Addr>, p: seq<Addr>, f: seq<Addr>, h: Addr)
    requires h in m
  {
    && (h in e <==> m[h].count == 0)
    && (h in f <==> m[h].free == NULL)
    && (h in p <==> m[h].count > 0 && m[h].free != NULL)
  }

  ghost predicate Separate(e: seq<Addr>, p: seq<Addr>, f: seq<Addr>) {
    (forall h <- e :: h !in p && h !in f) && (forall h <- p :: h !in f)
  }

  lemma RelinkedKeeps(cf: Config, mem: Memory, m: map<Addr, Header>, m1: map<Addr, Header>, s: seq<Addr>,
                      chain: map<Addr, seq<nat>>, alive: map<Addr, set<nat>>, live: set<Addr>)
    requires ConfigOk(cf) && AllSlabs(cf, mem, m, chain, alive) && LiveOk(cf.g, m, alive, live) && Relinked(m, m1, s)
    ensures AllSlabs(cf, mem, m1, chain, alive) && LiveOk(cf.g, m1, alive, live)
  {
    forall h | h in m1 ensures SlabOk(cf, mem, h, m1[h], chain[h], alive[h]) {
      assert SlabOk(cf, mem, h, m[h], chain[h], alive[h]);
    }
    forall b ensures IsLive(cf.g, m1, alive, b) <==> IsLive(cf.g, m, alive, b) {
      assert HeaderOf(b) in m ==> m1[HeaderOf(b)].colour == m[HeaderOf(b)].colour;
    }
    forall b ensures b in live <==> IsLive(cf.g, m1, alive, b) {
      assert b in live <==> IsLive(cf.g, m, alive, b);
    }
  }

  /** Writing inside an allocated buffer, or one that has just been taken off the free list. */
  lemma WriteKeeps(cf: Config, mem: Memory, mem1: Memory, m: map<Addr, Header>, chain: map<Addr, seq<nat>>,
                   alive: map<Addr, set<nat>>, live: set<Addr>, h: Addr, k: nat)
    requires ConfigOk(cf) && AllSlabs(cf, mem, m, chain, alive) && LiveOk(cf.g, m, alive, live)
    requires h in m && k in alive[h] && h >= AVAILABLE
    requires var b := Buffer(cf.g, h, m[h].colour, k); SameOutside(mem, mem1, b, b + cf.g.allocSize)
    ensures AllSlabs(cf, mem1, m, chain, alive)
    ensures Untouched(cf.g, mem, mem1, live - {Buffer(cf.g, h, m[h].colour, k)})
  {
    assert SlabOk(cf, mem, h, m[h], chain[h], alive[h]);
    forall h1 | h1 in m ensures SlabOk(cf, mem1, h1, m[h1], chain[h1], alive[h1]) {
      assert SlabOk(cf, mem, h1, m[h1], chain[h1], alive[h1]);
      SlabSame(cf, mem, mem1, h1, m[h1], chain[h1], alive[h1], h, m[h].colour, k);
    }
    forall b1 | b1 in live - {Buffer(cf.g, h, m[h].colour, k)} ensures SameBuffer(cf.g, mem, mem1, b1)
    {
      assert IsLive(cf.g, m, alive, b1);
      var h1 := HeaderOf(b1);
      var k1 :| k1 in alive[h1] && b1 == Buffer(cf.g, h1, m[h1].colour, k1);
      assert SlabOk(cf, mem, h1, m[h1], chain[h1], alive[h1]);
      Apart(cf, h, m[h].colour, k, h1, m[h1].colour, k1);
    }
  }

  /** Writing inside an allocated buffer, given its address. */
  lemma LiveWriteKeeps(cf: Config, mem: Memory, mem1: Memory, m: map<Addr, Header>, chain: map<Addr, seq<nat>>,
                       alive: map<Addr, set<nat>>, live: set<Addr>, b: Addr)
    requires ConfigOk(cf) && AllSlabs(cf, mem, m, chain, alive) && LiveOk(cf.g, m, alive, live) && b in live
    requires SameOutside(mem, mem1, b, b + cf.g.allocSize)
    ensures AllSlabs(cf, mem1, m, chain, alive) && Untouched(cf.g, mem, mem1, live - {b})
  {
    assert IsLive(cf.g, m, alive, b);
    var h := HeaderOf(b);
    var k :| k in alive[h] && b == Buffer(cf.g, h, m[h].colour, k);
    assert SlabOk(cf, mem, h, m[h], chain[h], alive[h]);
    WriteKeeps(cf, mem, mem1, m, chain, alive, live, h, k);
  }

  /** A slab that is not full, or has nothing allocated, has a free buffer. */
  lemma HasFree(cf: Config, mem: Memory, m: map<Addr, Header>, chain: map<Addr, seq<nat>>, alive: map<Addr, set<nat>>, h: Addr)
    requires ConfigOk(cf) && AllSlabs(cf, mem, m, chain, alive) && h in m && (m[h].free != NULL || m[h].count == 0)
    ensures chain[h] != [] && m[h].free != NULL && h != NULL
  {
    assert SlabOk(cf, mem, h, m[h], chain[h], alive[h]);
    if m[h].count == 0 {
      assert alive[h] == {};
      assert 0 in chain[h];
    }
  }

  /** The header of slab h after its first free buffer has been taken. */
  function Popped(mem: Memory, hd: Header): Header {
    hd.(free := Read(mem, hd.free), count := hd.count + 1)
  }

  /** The first free buffer of a slab is not an allocated one. */
  lemma FirstFree(cf: Config, mem: Memory, m: map<Addr, Header>, chain: map<Addr, seq<nat>>, alive: map<Addr, set<nat>>,
                  live: set<Addr>, h: Addr)
    requires ConfigOk(cf) && AllSlabs(cf, mem, m, chain, alive) && LiveOk(cf.g, m, alive, live)
    requires h in m && chain[h] != []
    ensures h >= AVAILABLE
    ensures var b := Buffer(cf.g, h, m[h].colour, chain[h][0]);
            && m[h].free == b + cf.g.bufctlOffset && b !in live && b != NULL && HeaderOf(b) == h && FreeOk(cf, mem, b)
  {
    var k := chain[h][0];
    assert SlabOk(cf, mem, h, m[h], chain[h], alive[h]);
    assert k in chain[h] && k < cf.perSlab && k !in alive[h];
    var b := Buffer(cf.g, h, m[h].colour, k);
    InPage(cf, h, m[h].colour, k);
    NotLive(cf, m, alive, h, k);
  }

  lemma NotLive(cf: Config, m: map<Addr, Header>, alive: map<Addr, set<nat>>, h: Addr, k: nat)
    requires ConfigOk(cf) && h in m && h in alive && Home(h) && IsColour(cf.g, m[h].colour) && k < cf.perSlab
    requires k !in alive[h] && forall k1 <- alive[h] :: k1 < cf.perSlab
    ensures !IsLive(cf.g, m, alive, Buffer(cf.g, h, m[h].colour, k))
  {
    InPage(cf, h, m[h].colour, k);
    var b := Buffer(cf.g, h, m[h].colour, k);
    if k1 :| k1 in alive[h] && b == Buffer(cf.g, h, m[h].colour, k1) {
      Apart(cf, h, m[h].colour, k, h, m[h].colour, k1);
    }
  }

  /** A new slab joins, on a page that no other slab uses. */
  lemma NewSlabKeeps(cf: Config, mem: Memory, mem1: Memory, m: map<Addr, Header>, chain: map<Addr, seq<nat>>,
                     alive: map<Addr, set<nat>>, live: set<Addr>, h: Addr, hd: Header, c: seq<nat>)
    requires ConfigOk(cf) && AllSlabs(cf, mem, m, chain, alive) && LiveOk(cf.g, m, alive, live) && h !in m
    requires SlabOk(cf, mem1, h, hd, c, {}) && SameOutside(mem, mem1, h - AVAILABLE, h)
    ensures AllSlabs(cf, mem1, m[h := hd], chain[h := c], alive[h := {}])
    ensures LiveOk(cf.g, m[h := hd], alive[h := {}], live) && Untouched(cf.g, mem, mem1, live)
  {
    var m1, chain1, alive1 := m[h := hd], chain[h := c], alive[h := {}];
    forall h1 | h1 in m1 ensures SlabOk(cf, mem1, h1, m1[h1], chain1[h1], alive1[h1]) {
      if h1 != h {
        assert SlabOk(cf, mem, h1, m[h1], chain[h1], alive[h1]);
        forall k | k in chain[h1]
          ensures var b := Buffer(cf.g, h1, m[h1].colour, k); b + cf.g.allocSize <= h - AVAILABLE || h <= b
        {
          InPage(cf, h1, m[h1].colour, k);
          PagesApart(h, h1);
        }
        SlabSameOutside(cf, mem, mem1, h1, m[h1], chain[h1], alive[h1], h - AVAILABLE, h);
      }
    }
    forall b ensures b in live <==> IsLive(cf.g, m1, alive1, b) {
      assert b in live <==> IsLive(cf.g, m, alive, b);
    }
    forall b | b in live ensures SameBuffer(cf.g, mem, mem1, b) {
      OtherPage(cf, mem, m, chain, alive, live, h, b);
    }
  }

  /** No allocated buffer touches a page that belongs to no slab. */
  lemma OtherPage(cf: Config, mem: Memory, m: map<Addr, Header>, chain: map<Addr, seq<nat>>, alive: map<Addr, set<nat>>,
                  live: set<Addr>, h: Addr, b: Addr)
    requires ConfigOk(cf) && AllSlabs(cf, mem, m, chain, alive) && LiveOk(cf.g, m, alive, live) && h !in m && Home(h) && b in live
    ensures b + cf.g.allocSize <= h - AVAILABLE || h <= b
  {
    assert IsLive(cf.g, m, alive, b);
    var h1 := HeaderOf(b);
    var k :| k in alive[h1] && b == Buffer(cf.g, h1, m[h1].colour, k);
    assert SlabOk(cf, mem, h1, m[h1], chain[h1], alive[h1]);
    InPage(cf, h1, m[h1].colour, k);
    PagesApart(h, h1);
  }

  /** The page was a slab's, is no longer, and no allocated buffer touches it. */
  ghost predicate Vacated(m: map<Addr, Header>, m1: map<Addr, Header>, g: Geometry, live: set<Addr>, page: Addr) {
    && page + AVAILABLE in m && page + AVAILABLE !in m1
    && forall b <- live :: b + g.allocSize <= page || page + SLAB_SIZE <= b
  }

  /** The slabs that are no longer there are those on the given pages. */
  ghost predicate Gone(m: map<Addr, Header>, m1: map<Addr, Header>, pages: seq<Addr>) {
    m1.Keys <= m.Keys && forall h <- m :: h in m1 || (h >= AVAILABLE && h - AVAILABLE in pages)
  }

  lemma StillVacated(m0: map<Addr, Header>, m: map<Addr, Header>, m1: map<Addr, Header>, g: Geometry, live: set<Addr>,
                     pages: seq<Addr>, page: Addr)
    requires Gone(m0, m, pages) && (forall p <- pages :: Vacated(m0, m, g, live, p))
    requires Vacated(m, m1, g, live, page) && m1 == m - {page + AVAILABLE}
    ensures Gone(m0, m1, pages + [page]) && forall p <- pages + [page] :: Vacated(m0, m1, g, live, p)
  {}

  lemma LiveWithout(g: Geometry, m: map<Addr, Header>, alive: map<Addr, set<nat>>, h: Addr, b: Addr)
    requires h in m && h in alive && alive[h] == {}
    ensures IsLive(g, m - {h}, alive - {h}, b) <==> IsLive(g, m, alive, b)
  {
    if HeaderOf(b) != h && HeaderOf(b) in m && HeaderOf(b) in alive {
      assert (m - {h})[HeaderOf(b)] == m[HeaderOf(b)] && (alive - {h})[HeaderOf(b)] == alive[HeaderOf(b)];
    }
  }

  /** A slab with nothing allocated can go; no allocated buffer touches its page. */
  lemma ReleaseKeeps(cf: Config, mem: Memory, m: map<Addr, Header>, chain: map<Addr, seq<nat>>, alive: map<Addr, set<nat>>,
                     live: set<Addr>, h: Addr)
    requires ConfigOk(cf) && AllSlabs(cf, mem, m, chain, alive) && LiveOk(cf.g, m, alive, live) && h in m && m[h].count == 0
    ensures AllSlabs(cf, mem, m - {h}, chain - {h}, alive - {h}) && LiveOk(cf.g, m - {h}, alive - {h}, live)
    ensures Home(h) && forall b <- live :: b + cf.g.allocSize <= h - AVAILABLE || h - AVAILABLE + SLAB_SIZE <= b
  {
    assert SlabOk(cf, mem, h, m[h], chain[h], alive[h]);
    var m1, chain1, alive1 := m - {h}, chain - {h}, alive - {h};
    forall h1 | h1 in m1 ensures SlabOk(cf, mem, h1, m1[h1], chain1[h1], alive1[h1]) {
      assert SlabOk(cf, mem, h1, m[h1], chain[h1], alive[h1]);
    }
    forall b ensures b in live <==> IsLive(cf.g, m1, alive1, b) {
      assert b in live <==> IsLive(cf.g, m, alive, b);
      LiveWithout(cf.g, m, alive, h, b);
    }
    forall b | b in live ensures b + cf.g.allocSize <= h - AVAILABLE || h - AVAILABLE + SLAB_SIZE <= b {
      var k := HomeOf(cf, mem, m, chain, alive, live, b);
      var h1 := HeaderOf(b);
      assert SlabOk(cf, mem, h1, m[h1], chain[h1], alive[h1]);
      InPage(cf, h1, m[h1].colour, k);
      PagesApart(h, h1);
    }
  }

  /** Only one slab changes. */
  lemma OneSlab(cf: Config, mem: Memory, m: map<Addr, Header>, chain: map<Addr, seq<nat>>, alive: map<Addr, set<nat>>,
                h: Addr, header: Header, free: seq<nat>, used: set<nat>)
    requires ConfigOk(cf) && AllSlabs(cf, mem, m, chain, alive) && h in m && SlabOk(cf, mem, h, header, free, used)
    ensures AllSlabs(cf, mem, m[h := header], chain[h := free], alive[h := used])
  {
    var m1, chain1, alive1 := m[h := header], chain[h := free], alive[h := used];
    forall h1 | h1 in m1 ensures SlabOk(cf, mem, h1, m1[h1], chain1[h1], alive1[h1]) {
      assert h1 != h ==> SlabOk(cf, mem, h1, m[h1], chain[h1], alive[h1]);
    }
  }

  /** One more buffer is allocated. */
  lemma AllocKeeps(cf: Config, mem: Memory, m: map<Addr, Header>, chain: map<Addr, seq<nat>>, alive: map<Addr, set<nat>>,
                   live: set<Addr>, h: Addr)
    requires ConfigOk(cf) && AllSlabs(cf, mem, m, chain, alive) && LiveOk(cf.g, m, alive, live)
    requires h in m && chain[h] != [] && h >= AVAILABLE
    ensures var k, m1 := chain[h][0], m[h := Popped(mem, m[h])];
            var alive1 := alive[h := alive[h] + {k}];
            && AllSlabs(cf, mem, m1, chain[h := chain[h][1..]], alive1)
            && LiveOk(cf.g, m1, alive1, live + {Buffer(cf.g, h, m[h].colour, k)})
            && (m1[h].free == NULL <==> chain[h][1..] == [])
  {
    var k, m1 := chain[h][0], m[h := Popped(mem, m[h])];
    var chain1, alive1 := chain[h := chain[h][1..]], alive[h := alive[h] + {k}];
    FirstFree(cf, mem, m, chain, alive, live, h);
    assert SlabOk(cf, mem, h, m[h], chain[h], alive[h]);
    PopKeeps(cf, mem, h, m[h], chain[h], alive[h]);
    OneSlab(cf, mem, m, chain, alive, h, m1[h], chain1[h], alive1[h]);
    LiveAdded(cf.g, m, m1, alive, live, h, k);
  }

  lemma LiveAdded(g: Geometry, m: map<Addr, Header>, m1: map<Addr, Header>, alive: map<Addr, set<nat>>, live: set<Addr>, h: Addr, k: nat)
    requires LiveOk(g, m, alive, live) && h in m && h in alive && m1.Keys == m.Keys && h >= AVAILABLE
    requires forall h1 <- m :: m1[h1].colour == m[h1].colour
    requires HeaderOf(Buffer(g, h, m[h].colour, k)) == h
    ensures LiveOk(g, m1, alive[h := alive[h] + {k}], live + {Buffer(g, h, m[h].colour, k)})
  {
    var b, alive1 := Buffer(g, h, m[h].colour, k), alive[h := alive[h] + {k}];
    forall b1 ensures b1 in live + {b} <==> IsLive(g, m1, alive1, b1) {
      assert b1 in live <==> IsLive(g, m, alive, b1);
      if IsLive(g, m, alive, b1) {
        var k1 :| k1 in alive[HeaderOf(b1)] && b1 == Buffer(g, HeaderOf(b1), m[HeaderOf(b1)].colour, k1);
        assert k1 in alive1[HeaderOf(b1)];
      }
      assert k in alive1[h];
    }
  }

  /** One buffer less is allocated. */
  lemma FreeKeeps(cf: Config, mem: Memory, m: map<Addr, Header>, chain: map<Addr, seq<nat>>, alive: map<Addr, set<nat>>,
                  live: set<Addr>, h: Addr, k: nat)
    requires ConfigOk(cf) && AllSlabs(cf, mem, m, chain, alive) && LiveOk(cf.g, m, alive, live)
    requires h in m && k in alive[h] && h >= AVAILABLE
    requires Read(mem, Link(cf.g, h, m[h].colour, k)) == m[h].free && FreeOk(cf, mem, Buffer(cf.g, h, m[h].colour, k))
    ensures m[h].count > 0
    ensures var b := Buffer(cf.g, h, m[h].colour, k);
            var m1 := m[h := m[h].(free := b + cf.g.bufctlOffset, count := m[h].count - 1)];
            var alive1 := alive[h := alive[h] - {k}];
            && AllSlabs(cf, mem, m1, chain[h := [k] + chain[h]], alive1)
            && LiveOk(cf.g, m1, alive1, live - {b})
  {
    assert SlabOk(cf, mem, h, m[h], chain[h], alive[h]);
    var b := Buffer(cf.g, h, m[h].colour, k);
    PushKeeps(cf, mem, h, m[h], chain[h], alive[h], k);
    var m1 := m[h := m[h].(free := b + cf.g.bufctlOffset, count := m[h].count - 1)];
    var chain1, alive1 := chain[h := [k] + chain[h]], alive[h := alive[h] - {k}];
    OneSlab(cf, mem, m, chain, alive, h, m1[h], chain1[h], alive1[h]);
    NoneElse(cf, mem, h, m[h], chain[h], alive[h], k);
    LiveRemoved(cf.g, m, m1, alive, live, h, k);
  }

  /** The buffers of a slab are at different addresses. */
  lemma NoneElse(cf: Config, mem: Memory, h: Addr, hd: Header, c: seq<nat>, a: set<nat>, k: nat)
    requires ConfigOk(cf) && SlabOk(cf, mem, h, hd, c, a) && k in a && h >= AVAILABLE
    ensures HeaderOf(Buffer(cf.g, h, hd.colour, k)) == h
    ensures forall k1 | k1 in a && k1 != k :: Buffer(cf.g, h, hd.colour, k1) != Buffer(cf.g, h, hd.colour, k)
  {
    InPage(cf, h, hd.colour, k);
    forall k1 | k1 in a && k1 != k ensures Buffer(cf.g, h, hd.colour, k1) != Buffer(cf.g, h, hd.colour, k) {
      Apart(cf, h, hd.colour, k, h, hd.colour, k1);
    }
  }

  lemma LiveRemoved(g: Geometry, m: map<Addr, Header>, m1: map<Addr, Header>, alive: map<Addr, set<nat>>, live: set<Addr>, h: Addr, k: nat)
    requires LiveOk(g, m, alive, live) && h in m && h in alive && m1.Keys == m.Keys && h >= AVAILABLE
    requires forall h1 <- m :: m1[h1].colour == m[h1].colour
    requires HeaderOf(Buffer(g, h, m[h].colour, k)) == h
    requires forall k1 <- alive[h] :: k1 != k ==> Buffer(g, h, m[h].colour, k1) != Buffer(g, h, m[h].colour, k)
    ensures LiveOk(g, m1, alive[h := alive[h] - {k}], live - {Buffer(g, h, m[h].colour, k)})
  {
    var b, alive1 := Buffer(g, h, m[h].colour, k), alive[h := alive[h] - {k}];
    forall b1 ensures b1 in live - {b} <==> IsLive(g, m1, alive1, b1) {
      assert b1 in live <==> IsLive(g, m, alive, b1);
      var h1 := HeaderOf(b1);
      if IsLive(g, m, alive, b1) && b1 != b {
        var k1 :| k1 in alive[h1] && b1 == Buffer(g, h1, m[h1].colour, k1);
        assert k1 in alive1[h1];
      }
      if IsLive(g, m1, alive1, b1) {
        var k1 :| k1 in alive1[h1] && b1 == Buffer(g, h1, m1[h1].colour, k1);
        assert k1 in alive[h1] && (h1 == h ==> k1 != k);
      }
    }
  }

  // ---- Moving a slab between lists

  lemma WithoutMembers(s: seq<Addr>, i: nat)
    requires NoDup(s) && i < |s|
    ensures NoDup(Without(s, i)) && forall h :: h in Without(s, i) <==> h in s && h != s[i]
  {
    var t := Without(s, i);
    assert forall j :: 0 <= j < |t| ==> t[j] == if j < i then s[j] else s[j + 1];
    forall h | h in s && h != s[i] ensures h in t {
      var j :| 0 <= j < |s| && s[j] == h;
      assert t[if j < i then j else j - 1] == h;
    }
  }

  ghost predicate SameBut(s: seq<Addr>, t: seq<Addr>, x: Addr) {
    forall h :: h != x ==> (h in s <==> h in t)
  }

  /** Only x has moved. */
  lemma SortedMoved(m: map<Addr, Header>, m1: map<Addr, Header>, e: seq<Addr>, p: seq<Addr>, f: seq<Addr>, y: Addr,
                    e1: seq<Addr>, p1: seq<Addr>, f1: seq<Addr>, x: Addr)
    requires Sorted(m, e, p, f, y) && (y == NULL || y == x) && NULL !in m && m1.Keys == m.Keys
    requires forall h <- m :: h != x ==> m1[h].count == m[h].count && m1[h].free == m[h].free
    requires SameBut(e, e1, x) && SameBut(p, p1, x) && SameBut(f, f1, x)
    ensures Sorted(m1, e1, p1, f1, x)
    ensures x in m1 && SortedAt(m1, e1, p1, f1, x) ==> Sorted(m1, e1, p1, f1, NULL)
  {
    forall h | h in m1 && h != x ensures SortedAt(m1, e1, p1, f1, h) {
      assert SortedAt(m, e, p, f, h);
    }
  }

  /** Unlinking from one list and pushing onto a second leaves a third alone. */
  lemma MoveLinks(m: map<Addr, Header>, a: Addr, s: seq<Addr>, i: nat, b: Addr, t: seq<Addr>, c: Addr, u: seq<Addr>)
    requires Linked(m, a, s) && Linked(m, b, t) && Linked(m, c, u) && i < |s|
    requires forall h <- s :: h !in t && h !in u
    requires forall h <- t :: h !in u
    ensures var x := s[i];
            && (a != x ==> m[x].prev in m) && (m[x].next == NULL || m[x].next in m) && (b == NULL || b in m)
            && var m1 := PushFront(Unlink(m, a, x), b, x);
               && Linked(m1, HeadAfter(m, a, x), Without(s, i)) && Linked(m1, x, [x] + t) && Linked(m1, c, u)
               && Relinked(m, m1, s + t)
  {
    var x := s[i];
    UnlinkLinks(m, a, s, i);
    WithoutMembers(s, i);
    var m0 := Unlink(m, a, x);
    OtherListKept(m, m0, s, b, t);
    OtherListKept(m, m0, s, c, u);
    PushFrontLinks(m0, b, t, x);
    var m1 := PushFront(m0, b, x);
    OtherListKept(m0, m1, [x] + t, HeadAfter(m, a, x), Without(s, i));
    OtherListKept(m0, m1, [x] + t, c, u);
  }

  lemma TailLinked(m: map<Addr, Header>, head: Addr, s: seq<Addr>)
    requires Linked(m, head, s) && s != []
    ensures Linked(m, m[head].next, s[1..])
  {
    var t := s[1..];
    assert LinkedAt(m, s, 0);
    forall i | 0 <= i < |t| ensures LinkedAt(m, t, i) {
      assert t[i] == s[i + 1] && LinkedAt(m, s, i + 1);
    }
  }

  /** Taking the first slab off a list without touching the second one, and pushing it onto another list. */
  lemma MoveFirstLinks(m: map<Addr, Header>, a: Addr, s: seq<Addr>, b: Addr, t: seq<Addr>, c: Addr, u: seq<Addr>)
    requires Linked(m, a, s) && Linked(m, b, t) && Linked(m, c, u) && s != []
    requires forall h <- s :: h !in t && h !in u
    requires forall h <- t :: h !in u
    ensures a in m && (b == NULL || b in m)
    ensures var m1 := PushFront(m, b, a);
            && Linked(m1, m[a].next, s[1..]) && Linked(m1, a, [a] + t) && Linked(m1, c, u)
            && Relinked(m, m1, [a] + t) && SameBut(s, s[1..], a) && SameBut(t, [a] + t, a) && a !in s[1..]
  {
    TailLinked(m, a, s);
    PushFrontLinks(m, b, t, a);
    var m1 := PushFront(m, b, a);
    OtherListKept(m, m1, [a] + t, m[a].next, s[1..]);
    OtherListKept(m, m1, [a] + t, c, u);
  }

  /** A slab with nothing allocated is added in front of the empty ones. */
  lemma AddedLinks(m: map<Addr, Header>, h: Addr, hd: Header, a: Addr, s: seq<Addr>, b: Addr, t: seq<Addr>, c: Addr, u: seq<Addr>)
    requires Linked(m, a, s) && Linked(m, b, t) && Linked(m, c, u) && h !in m && h != NULL
    requires Separate(s, t, u) && Sorted(m, s, t, u, NULL) && NULL !in m && hd.count == 0 && hd.free != NULL
    ensures a == NULL || a in m
    ensures var m1 := PushFront(m[h := hd], a, h);
            && Linked(m1, h, [h] + s) && Linked(m1, b, t) && Linked(m1, c, u)
            && Separate([h] + s, t, u) && Sorted(m1, [h] + s, t, u, NULL) && Relinked(m[h := hd], m1, [h] + s)
  {
    var m0 := m[h := hd];
    WiderLinked(m, m0, a, s);
    WiderLinked(m, m0, b, t);
    WiderLinked(m, m0, c, u);
    PushFrontLinks(m0, a, s, h);
    var m1 := PushFront(m0, a, h);
    OtherListKept(m0, m1, [h] + s, b, t);
    OtherListKept(m0, m1, [h] + s, c, u);
    forall x | x in m1 && x != NULL ensures SortedAt(m1, [h] + s, t, u, x) {
      assert x != h ==> SortedAt(m, s, t, u, x);
    }
  }

  lemma WiderLinked(m: map<Addr, Header>, m1: map<Addr, Header>, head: Addr, s: seq<Addr>)
    requires Linked(m, head, s) && m.Keys <= m1.Keys && forall h <- m :: m1[h] == m[h]
    ensures Linked(m1, head, s)
  {
    forall i | 0 <= i < |s| ensures LinkedAt(m1, s, i) {
      assert LinkedAt(m, s, i);
    }
  }

  lemma ReleasedLinks(m: map<Addr, Header>, a: Addr, s: seq<Addr>, b: Addr, t: seq<Addr>, c: Addr, u: seq<Addr>)
    requires Linked(m, a, s) && Linked(m, b, t) && Linked(m, c, u) && s != []
    requires Separate(s, t, u) && Sorted(m, s, t, u, NULL)
    ensures var m1 := m - {a};
            && a in m && Linked(m1, m[a].next, s[1..]) && Linked(m1, b, t) && Linked(m1, c, u)
            && Separate(s[1..], t, u) && Sorted(m1, s[1..], t, u, NULL)
  {
    TailLinked(m, a, s);
    var m1 := m - {a};
    NarrowerLinked(m, m1, m[a].next, s[1..]);
    NarrowerLinked(m, m1, b, t);
    NarrowerLinked(m, m1, c, u);
    assert SameBut(s, s[1..], a);
    forall x | x in m1 && x != NULL ensures SortedAt(m1, s[1..], t, u, x) {
      assert SortedAt(m, s, t, u, x);
    }
  }

  lemma NarrowerLinked(m: map<Addr, Header>, m1: map<Addr, Header>, head: Addr, s: seq<Addr>)
    requires Linked(m, head, s) && (forall h <- s :: h in m1) && m1.Keys <= m.Keys && forall h <- m1 :: m1[h] == m[h]
    ensures Linked(m1, head, s)
  {
    forall i | 0 <= i < |s| ensures LinkedAt(m1, s, i) {
      assert LinkedAt(m, s, i);
    }
  }

  // ---- Stores

  function Stored(mem: Memory, b: Addr, ws: seq<nat>): Memory
    decreases |ws|
  {
    if ws == [] then mem else Stored(mem[b := ws[0]], b + WORD, ws[1..])
  }

  lemma {:induction false} StoredWords(mem: Memory, b: Addr, ws: seq<nat>)
    ensures Words(Stored(mem, b, ws), b, |ws|) == ws
    ensures SameOutside(mem, Stored(mem, b, ws), b, b + |ws| * WORD)
    decreases |ws|
  {
    if ws != [] {
      var mem1 := mem[b := ws[0]];
      StoredWords(mem1, b + WORD, ws[1..]);
      var r := Stored(mem1, b + WORD, ws[1..]);
      assert Read(r, b) == ws[0];
      forall i | 0 < i < |ws| ensures Words(r, b, |ws|)[i] == ws[i] {
        assert Words(r, b + WORD, |ws| - 1)[i - 1] == ws[i];
      }
    }
  }

  datatype Occupancy = Empty | Partial | Full

  class Cache {
    const cf: Config
    var mem: Memory
    var slabs: map<Addr, Header>
    var emptyHead: Addr
    var partialHead: Addr
    var fullHead: Addr
    var emptyCount: int
    var nextColour: nat
    var workingSet: nat
    ghost var empties: seq<Addr>
    ghost var partials: seq<Addr>
    ghost var fulls: seq<Addr>
    ghost var chain: map<Addr, seq<nat>>     // the free buffers of each slab, in list order
    ghost var alive: map<Addr, set<nat>>     // the allocated buffers of each slab
    ghost var live: set<Addr>                // the addresses of all allocated buffers

    ghost predicate Contents()
      reads this`mem, this`slabs, this`chain, this`alive, this`live
    {
      ConfigOk(cf) && AllSlabs(cf, mem, slabs, chain, alive) && LiveOk(cf.g, slabs, alive, live)
    }

    /** The three lists are well linked, apart, and sort all slabs but x by occupancy. */
    ghost predicate Listed(x: Addr)
      reads this`slabs, this`emptyHead, this`partialHead, this`fullHead, this`empties, this`partials, this`fulls, this`emptyCount
    {
      && (forall l {:trigger ListOk(l)} :: ListOk(l))
      && Separate(empties, partials, fulls) && Sorted(slabs, empties, partials, fulls, x)
      && emptyCount == |empties|
    }

    ghost predicate ListOk(l: Occupancy)
      reads this`slabs, this`emptyHead, this`partialHead, this`fullHead, this`empties, this`partials, this`fulls
    {
      match l
      case Empty => Linked(slabs, emptyHead, empties)
      case Partial => Linked(slabs, partialHead, partials)
      case Full => Linked(slabs, fullHead, fulls)
    }

    ghost predicate Valid()
      reads this
    {
      Contents() && Listed(NULL) && NULL !in slabs && IsColour(cf.g, nextColour)
    }

    /** A new cache for objects of a size, with a first empty slab on `page`. */
    constructor (cf: Config, size: nat, alignment: nat, dcache: nat, mem: Memory, page: Addr, garbage: Addr)
      requires size >= WORD && cf.g == CacheInit(size, alignment, cf.flags, cf.hasCtor, dcache)
      requires cf.g.allocSize <= AVAILABLE && cf.perSlab == PerSlab(cf.g.allocSize) && Cooperative(cf)
      requires page >= SLAB_SIZE && page % SLAB_SIZE == 0
      ensures Valid() && this.cf == cf && live == {} && workingSet == DEFAULT_WORKING_SET
      ensures empties == [page + AVAILABLE] && partials == fulls == []
    {
      this.cf, this.mem := cf, mem;
      slabs, chain, alive, live := map[], map[], map[], {};
      emptyHead, partialHead, fullHead, emptyCount := NULL, NULL, NULL, 0;
      empties, partials, fulls := [], [], [];
      nextColour, workingSet := 0, DEFAULT_WORKING_SET;
      CacheInitOk(cf, size, alignment, dcache);
      new;
      InitAndAddSlab(page, garbage);
    }

    /** Unlink a slab, then push it onto the list that starts at `to`. */
    method Relink(from: Addr, to: Addr, slab: Addr) returns (from1: Addr)
      requires slab in slabs && (from != slab ==> slabs[slab].prev in slabs && slabs[slab].prev != slab)
      requires slabs[slab].next == NULL || slabs[slab].next in slabs
      requires to == NULL || to in slabs
      modifies this`slabs
      ensures slabs == PushFront(Unlink(old(slabs), from, slab), to, slab) && from1 == HeadAfter(old(slabs), from, slab)
    {
      var prev, next := slabs[slab].prev, slabs[slab].next;
      from1 := from;
      if from == slab {
        from1 := next;
      } else {
        slabs := slabs[prev := slabs[prev].(next := next)];
      }
      if next != NULL {
        slabs := slabs[next := slabs[next].(prev := prev)];
      }
      slabs := slabs[slab := slabs[slab].(next := to)];
      if to != NULL {
        slabs := slabs[to := slabs[to].(prev := slab)];
      }
    }

    /** Move a slab from one list to another. */
    method Relocate(from: Addr, to: Addr, slab: Addr, ghost s: seq<Addr>, ghost t: seq<Addr>, ghost third: Addr, ghost u: seq<Addr>)
      returns (from1: Addr, ghost s1: seq<Addr>)
      requires Linked(slabs, from, s) && Linked(slabs, to, t) && Linked(slabs, third, u) && slab in s
      requires (forall h <- s :: h !in t && h !in u) && (forall h <- t :: h !in u)
      modifies this`slabs
      ensures Relinked(old(slabs), slabs, s + t)
      ensures Linked(slabs, from1, s1) && Linked(slabs, slab, [slab] + t) && Linked(slabs, third, u)
      ensures SameBut(s, s1, slab) && slab !in s1 && SameBut(t, [slab] + t, slab) && |s1| == |s| - 1
    {
      ghost var i :| 0 <= i < |s| && s[i] == slab;
      MoveLinks(slabs, from, s, i, to, t, third, u);
      WithoutMembers(s, i);
      assert LinkedAt(slabs, s, i);
      from1 := Relink(from, to, slab);
      s1 := Without(s, i);
    }

    /** The first empty slab becomes the first partial one. */
    method EmptyToPartial() returns (slab: Addr)
      requires NULL !in slabs && Listed(NULL) && empties != []
      modifies this`slabs, this`emptyHead, this`partialHead, this`emptyCount, this`empties, this`partials
      ensures Listed(slab) && slab == old(empties)[0] && slab in slabs && Relinked(old(slabs), slabs, partials)
      ensures empties == old(empties)[1..] && partials == [slab] + old(partials)
      ensures slabs[slab].free == old(slabs)[slab].free && slabs[slab].count == 0
    {
      assert ListOk(Empty) && ListOk(Partial) && ListOk(Full);
      slab := emptyHead;
      assert SortedAt(slabs, empties, partials, fulls, slab);
      MoveFirstLinks(slabs, emptyHead, empties, partialHead, partials, fullHead, fulls);
      emptyHead := slabs[slab].next;
      emptyCount := emptyCount - 1;
      slabs := slabs[slab := slabs[slab].(next := partialHead)];
      if partialHead != NULL {
        slabs := slabs[partialHead := slabs[partialHead].(prev := slab)];
      }
      partialHead := slab;
      empties, partials := empties[1..], [slab] + partials;
      assert slabs == PushFront(old(slabs), old(partialHead), slab);
      SortedMoved(old(slabs), slabs, old(empties), old(partials), fulls, NULL, empties, partials, fulls, slab);
    }

    /** The first partial slab has no free buffer left. */
    method PartialToFull(slab: Addr)
      requires NULL !in slabs && Listed(slab) && slab in partials && slab in slabs && slabs[slab].free == NULL && slabs[slab].count > 0
      modifies this`slabs, this`partialHead, this`fullHead, this`partials, this`fulls
      ensures Listed(NULL) && Relinked(old(slabs), slabs, old(partials + fulls))
    {
      assert ListOk(Empty) && ListOk(Partial) && ListOk(Full);
      partialHead, partials := Relocate(partialHead, fullHead, slab, partials, fulls, emptyHead, empties);
      fullHead, fulls := slab, [slab] + fulls;
      SortedMoved(old(slabs), slabs, empties, old(partials), old(fulls), slab, empties, partials, fulls, slab);
    }

    /** A full slab is about to get a buffer back. */
    method FullToPartial(slab: Addr)
      requires NULL !in slabs && Listed(NULL) && slab in fulls && slab in slabs && slabs[slab].count > 0
      modifies this`slabs, this`partialHead, this`fullHead, this`partials, this`fulls
      ensures Listed(slab) && slab in partials && slab in slabs && Relinked(old(slabs), slabs, old(fulls + partials))
    {
      assert ListOk(Empty) && ListOk(Partial) && ListOk(Full);
      fullHead, fulls := Relocate(fullHead, partialHead, slab, fulls, partials, emptyHead, empties);
      partialHead, partials := slab, [slab] + partials;
      SortedMoved(old(slabs), slabs, empties, old(partials), old(fulls), NULL, empties, partials, fulls, slab);
    }

    /** A slab has got its last buffer back. */
    method PartialToEmpty(slab: Addr)
      requires NULL !in slabs && Listed(slab) && slab in partials && slab in slabs && slabs[slab].free != NULL && slabs[slab].count == 0
      modifies this`slabs, this`partialHead, this`emptyHead, this`partials, this`empties, this`emptyCount
      ensures Listed(NULL) && Relinked(old(slabs), slabs, old(partials + empties))
    {
      assert ListOk(Empty) && ListOk(Partial) && ListOk(Full);
      partialHead, partials := Relocate(partialHead, emptyHead, slab, partials, empties, fullHead, fulls);
      emptyHead, empties := slab, [slab] + empties;
      emptyCount := emptyCount + 1;
      SortedMoved(old(slabs), slabs, old(empties), old(partials), fulls, slab, empties, partials, fulls, slab);
    }

    /** Take the first free buffer of a slab. */
    method Pop(slab: Addr) returns (b: Addr)
      requires Contents() && slab in slabs && chain[slab] != []
      modifies this`slabs, this`chain, this`alive, this`live
      ensures Contents() && b !in old(live) && b != NULL && live == old(live) + {b} && HeaderOf(b) == slab && FreeOk(cf, mem, b)
      ensures slabs == old(slabs)[slab := Popped(mem, old(slabs)[slab])]
    {
      FirstFree(cf, mem, slabs, chain, alive, live, slab);
      AllocKeeps(cf, mem, slabs, chain, alive, live, slab);
      ghost var k := chain[slab][0];
      var bufctl := slabs[slab].free;
      b := bufctl - cf.g.bufctlOffset;
      slabs := slabs[slab := slabs[slab].(free := Read(mem, bufctl), count := slabs[slab].count + 1)];
      chain, alive, live := chain[slab := chain[slab][1..]], alive[slab := alive[slab] + {k}], live + {b};
    }

    /** Fill an object with the poison of live objects and report whether a word was not as left when it was freed. */
    method Revive(b: Addr, n: nat) returns (dirty: bool)
      modifies this`mem
      ensures dirty <==> exists i :: 0 <= i < n && old(Words(mem, b, n))[i] != POISON_DEAD
      ensures SameOutside(old(mem), mem, b, b + n * WORD)
    {
      dirty := false;
      ghost var was := Words(mem, b, n);
      for i := 0 to n
        invariant dirty <==> exists j :: 0 <= j < i && was[j] != POISON_DEAD
        invariant Words(mem, b, n)[i..] == was[i..]
        invariant SameOutside(old(mem), mem, b, b + i * WORD)
      {
        assert Words(mem, b, n)[i] == Words(mem, b, n)[i..][0] == was[i];
        dirty := dirty || Read(mem, b + i * WORD) != POISON_DEAD;
        WordsUpdated(mem, b, n, i, POISON_ALIVE);
        WriteInside(old(mem), mem, b, b + i * WORD, b + i * WORD, POISON_ALIVE, b + (i + 1) * WORD);
        mem := mem[b + i * WORD := POISON_ALIVE];
      }
    }

    /** Fill an object with the poison of free objects. */
    method Poison(b: Addr, n: nat)
      modifies this`mem
      ensures forall i :: 0 <= i < n ==> Words(mem, b, n)[i] == POISON_DEAD
      ensures SameOutside(old(mem), mem, b, b + n * WORD)
    {
      for i := 0 to n
        invariant forall j :: 0 <= j < i ==> Words(mem, b, n)[j] == POISON_DEAD
        invariant SameOutside(old(mem), mem, b, b + i * WORD)
      {
        WordsUpdated(mem, b, n, i, POISON_DEAD);
        WriteInside(old(mem), mem, b, b + i * WORD, b + i * WORD, POISON_DEAD, b + (i + 1) * WORD);
        mem := mem[b + i * WORD := POISON_DEAD];
      }
    }

    /** Get a buffer that has just been taken off the free list ready for the client. */
    method Dress(b: Addr) returns (warned: bool)
      requires Roomy(cf) && Cooperative(cf) && FreeOk(cf, mem, b)
      modifies this`mem
      ensures !warned && SameOutside(old(mem), mem, b, b + cf.g.allocSize)
      ensures cf.hasCtor ==> cf.constructed(Words(mem, b, ObjWords(cf)))
      ensures cf.flags.redZone ==> Read(mem, b + cf.g.objSize) == RED_ZONE
    {
      warned := false;
      var n := ObjWords(cf);
      if cf.flags.poison {
        warned := Revive(b, n);
        if cf.flags.redZone {
          assert Read(mem, b + cf.g.objSize) == RED_ZONE;
          warned := warned || Read(mem, b + cf.g.objSize) != RED_ZONE;
          WriteInside(old(mem), mem, b, b + cf.g.objSize, b + cf.g.objSize, RED_ZONE, b + cf.g.allocSize);
          mem := mem[b + cf.g.objSize := RED_ZONE];
        }
        if cf.hasCtor {
          ghost var mem1 := mem;
          var object_ := cf.ctor(Words(mem, b, n));
          StoredWords(mem, b, object_);
          mem := Stored(mem, b, object_);
          SameOutsideThen(old(mem), mem1, mem, b, b + cf.g.allocSize, b, b + cf.g.objSize, b, b + cf.g.allocSize);
          assert Read(mem, b + cf.g.objSize) == Read(mem1, b + cf.g.objSize);
        }
      } else if cf.flags.redZone {
        WriteInside(mem, mem, b, b, b + cf.g.objSize, RED_ZONE, b + cf.g.allocSize);
        WordsSame(mem, mem[b + cf.g.objSize := RED_ZONE], b + cf.g.objSize, b + cf.g.allocSize, b, n);
        mem := mem[b + cf.g.objSize := RED_ZONE];
      }
    }

    /** Make a buffer that the client gives back fit for the free list and link it in front of `next`. */
    method Undress(b: Addr, next: Addr) returns (warned: bool)
      requires Roomy(cf) && Cooperative(cf)
      requires cf.hasCtor && !cf.flags.poison ==> cf.constructed(Words(mem, b, ObjWords(cf)))
      modifies this`mem
      ensures warned <==> cf.flags.redZone && old(Read(mem, b + cf.g.objSize)) != RED_ZONE
      ensures SameOutside(old(mem), mem, b, b + cf.g.allocSize) && FreeOk(cf, mem, b)
      ensures Read(mem, b + cf.g.bufctlOffset) == next
    {
      warned := false;
      if cf.flags.redZone {
        warned := Read(mem, b + cf.g.objSize) != RED_ZONE;
        WriteInside(mem, mem, b, b, b + cf.g.objSize, RED_ZONE, b + cf.g.allocSize);
        WordsSame(mem, mem[b + cf.g.objSize := RED_ZONE], b + cf.g.objSize, b + cf.g.allocSize, b, ObjWords(cf));
        mem := mem[b + cf.g.objSize := RED_ZONE];
      }
      if cf.flags.poison {
        PoisonObject(b);
      }
      LinkIn(b, next);
    }

    method PoisonObject(b: Addr)
      requires Roomy(cf) && Cooperative(cf)
      modifies this`mem
      ensures SameOutside(old(mem), mem, b, b + cf.g.objSize)
      ensures forall i :: 0 <= i < ObjWords(cf) ==> Words(mem, b, ObjWords(cf))[i] == POISON_DEAD
    {
      var n := ObjWords(cf);
      if cf.hasDtor {
        var left := cf.dtor(Words(mem, b, n));
        StoredWords(mem, b, left);
        mem := Stored(mem, b, left);
      }
      ghost var mem1 := mem;
      Poison(b, n);
      SameOutsideThen(old(mem), mem1, mem, b, b + cf.g.objSize, b, b + cf.g.objSize, b, b + cf.g.objSize);
    }

    /** The link word goes where the free object, or its poison, does not mind. */
    method LinkIn(b: Addr, next: Addr)
      requires Roomy(cf) && Cooperative(cf) && FreeOk(cf, mem, b)
      modifies this`mem
      ensures SameOutside(old(mem), mem, b, b + cf.g.allocSize) && FreeOk(cf, mem, b)
      ensures Read(mem, b + cf.g.bufctlOffset) == next
    {
      var n, link := ObjWords(cf), b + cf.g.bufctlOffset;
      WriteInside(mem, mem, b, b, link, next, b + cf.g.allocSize);
      if cf.g.objSize <= cf.g.bufctlOffset {
        WriteInside(mem, mem, link, link, link, next, b + cf.g.allocSize);
        WordsSame(mem, mem[link := next], link, b + cf.g.allocSize, b, n);
      } else {
        WordsUpdated(mem, b, n, n - 1, next);
        assert Words(mem[link := next], b, n) == LastLost(Words(mem, b, n), next);
      }
      mem := mem[link := next];
    }

    /** A slab on the partial list is either still partial or goes to the full list. */
    method Settle(slab: Addr)
      requires Contents() && NULL !in slabs && Listed(slab) && slab in partials && slab in slabs && slabs[slab].count > 0
      modifies this`slabs, this`partialHead, this`fullHead, this`partials, this`fulls
      ensures Contents() && Listed(NULL) && slabs.Keys == old(slabs.Keys)
    {
      if slabs[slab].free == NULL {
        PartialToFull(slab);
        RelinkedKeeps(cf, mem, old(slabs), slabs, old(partials + fulls), chain, alive, live);
      } else {
        SortedMoved(slabs, slabs, empties, partials, fulls, slab, empties, partials, fulls, slab);
      }
    }

    /** Take a buffer from the slab at hand, which is on the partial list. */
    method AllocFrom(slab: Addr) returns (b: Addr)
      requires Contents() && NULL !in slabs && Listed(slab) && slab in partials && slab in slabs && chain[slab] != []
      modifies this`slabs, this`chain, this`alive, this`live, this`partialHead, this`fullHead, this`partials, this`fulls
      ensures Contents() && Listed(NULL) && slabs.Keys == old(slabs.Keys)
      ensures b !in old(live) && b != NULL && live == old(live) + {b} && FreeOk(cf, mem, b)
    {
      assert ListOk(Empty) && ListOk(Partial) && ListOk(Full);
      b := Pop(slab);
      PoppedListed(old(slabs), slabs, slab);
      Settle(slab);
    }

    lemma PoppedListed(m: map<Addr, Header>, m1: map<Addr, Header>, slab: Addr)
      requires NULL !in m && slab in m && slab in m1 && m1 == m[slab := m1[slab]] && m1[slab].prev == m[slab].prev && m1[slab].next == m[slab].next
      requires Linked(m, emptyHead, empties) && Linked(m, partialHead, partials) && Linked(m, fullHead, fulls)
      requires Sorted(m, empties, partials, fulls, slab)
      ensures Linked(m1, emptyHead, empties) && Linked(m1, partialHead, partials) && Linked(m1, fullHead, fulls)
      ensures Sorted(m1, empties, partials, fulls, slab)
    {
      SameLinksKept(m, m1, emptyHead, empties);
      SameLinksKept(m, m1, partialHead, partials);
      SameLinksKept(m, m1, fullHead, fulls);
      SortedMoved(m, m1, empties, partials, fulls, slab, empties, partials, fulls, slab);
    }

    /** What a buffer of a new slab holds. */
    method InitObject(b: Addr)
      requires Roomy(cf) && Cooperative(cf)
      modifies this`mem
      ensures SameOutside(old(mem), mem, b, b + cf.g.allocSize) && FreeOk(cf, mem, b)
    {
      var n := ObjWords(cf);
      if cf.flags.poison {
        Poison(b, n);
        if cf.flags.redZone {
          var ptr := b + cf.g.objSize;
          WriteInside(old(mem), mem, b, ptr, ptr, RED_ZONE, b + cf.g.allocSize);
          WriteInside(mem, mem, ptr, ptr, ptr, RED_ZONE, b + cf.g.allocSize);
          WordsSame(mem, mem[ptr := RED_ZONE], ptr, b + cf.g.allocSize, b, n);
          mem := mem[ptr := RED_ZONE];
        }
      } else if cf.hasCtor {
        var made := cf.ctor(Words(mem, b, n));
        StoredWords(mem, b, made);
        mem := Stored(mem, b, made);
      }
    }

    /** Cut a page into buffers and chain them. */
    method Carve(h: Addr, colour: nat)
      requires ConfigOk(cf) && Home(h) && IsColour(cf.g, colour)
      modifies this`mem
      ensures SameOutside(old(mem), mem, h - AVAILABLE, h) && cf.perSlab > 0
      ensures CarvedUpTo(cf, mem, h, colour, cf.perSlab - 1) && CarvedAt(cf, mem, h, colour, cf.perSlab - 1, NULL)
    {
      var bufctl := h - AVAILABLE + colour + cf.g.bufctlOffset;
      ghost var k := 0;
      while true
        invariant k < cf.perSlab && bufctl == Link(cf.g, h, colour, k)
        invariant CarvedUpTo(cf, mem, h, colour, k) && SameOutside(old(mem), mem, h - AVAILABLE, h)
        decreases cf.perSlab - k
      {
        var last;
        bufctl, last := CarveOne(h, colour, bufctl, k, old(mem));
        if last {
          break;
        }
        k := k + 1;
      }
    }

    method CarveOne(h: Addr, colour: nat, bufctl: Addr, ghost k: nat, ghost mem0: Memory) returns (next: Addr, last: bool)
      requires ConfigOk(cf) && Home(h) && IsColour(cf.g, colour) && k < cf.perSlab && bufctl == Link(cf.g, h, colour, k)
      requires CarvedUpTo(cf, mem, h, colour, k) && SameOutside(mem0, mem, h - AVAILABLE, h)
      modifies this`mem
      ensures last <==> k + 1 == cf.perSlab
      ensures next == Link(cf.g, h, colour, k + 1)
      ensures last ==> CarvedUpTo(cf, mem, h, colour, k) && CarvedAt(cf, mem, h, colour, k, NULL)
      ensures !last ==> CarvedUpTo(cf, mem, h, colour, k + 1)
      ensures SameOutside(mem0, mem, h - AVAILABLE, h)
    {
      var buffer := bufctl - cf.g.bufctlOffset;
      InPage(cf, h, colour, k);
      InitObject(buffer);
      ghost var mem1 := mem;
      next := bufctl + cf.g.allocSize;
      NextLink(cf.g, h, colour, k);
      last := next >= h;
      assert FitsAt(cf.g, cf.perSlab, colour, k);
      LinkIn(buffer, if last then NULL else next);
      SameOutsideThen(old(mem), mem1, mem, buffer, buffer + cf.g.allocSize, buffer, buffer + cf.g.allocSize,
                      buffer, buffer + cf.g.allocSize);
      CarvedKept(cf, old(mem), mem, h, colour, k);
      SameOutsideThen(mem0, old(mem), mem, h - AVAILABLE, h, buffer, buffer + cf.g.allocSize, h - AVAILABLE, h);
      assert !last ==> Carved(cf, mem, h, colour, k);
    }

    /** Turn a page into an empty slab; `garbage` is what its header's `prev` happens to hold. */
    method InitAndAddSlab(page: Addr, garbage: Addr)
      requires Valid() && FreshPage(page)
      modifies this`mem, this`slabs, this`nextColour, this`emptyHead, this`emptyCount, this`empties, this`chain, this`alive
      ensures Valid() && Untouched(cf.g, old(mem), mem, live)
      ensures empties == [page + AVAILABLE] + old(empties)
    {
      var slab := page + SLAB_SIZE - HEADER_SIZE;
      var hd := Build(slab, garbage);
      AddSlab(slab, hd);
    }

    /** A slab that has been carved goes in front of the empty ones. */
    method AddSlab(slab: Addr, hd: Header)
      requires ConfigOk(cf) && Listed(NULL) && NULL !in slabs && slab !in slabs && slab != NULL && hd.count == 0 && hd.free != NULL
      requires AllSlabs(cf, mem, slabs[slab := hd], chain[slab := UpTo(cf.perSlab)], alive[slab := {}])
      requires LiveOk(cf.g, slabs[slab := hd], alive[slab := {}], live)
      modifies this`slabs, this`emptyHead, this`emptyCount, this`empties, this`chain, this`alive
      ensures Contents() && Listed(NULL) && NULL !in slabs && empties == [slab] + old(empties)
    {
      ghost var m := slabs[slab := hd];
      chain, alive := chain[slab := UpTo(cf.perSlab)], alive[slab := {}];
      LinkNew(slab, hd);
      RelinkedKeeps(cf, mem, m, slabs, empties, chain, alive, live);
    }

    ghost predicate FreshPage(page: Addr)
      reads this`slabs
    {
      page >= SLAB_SIZE && page % SLAB_SIZE == 0 && page + AVAILABLE !in slabs
    }

    method NextColour()
      requires Layout(cf.g, cf.perSlab) && IsColour(cf.g, nextColour)
      modifies this`nextColour
      ensures IsColour(cf.g, nextColour)
    {
      if nextColour < cf.g.maxColour {
        assert StepsOn(cf.g, nextColour);
        nextColour := nextColour + cf.g.alignment;
      } else {
        nextColour := 0;
      }
    }

    /** Lay out the buffers and the header of a new slab. */
    method Build(slab: Addr, garbage: Addr) returns (hd: Header)
      requires Contents() && IsColour(cf.g, nextColour) && Home(slab) && slab !in slabs
      modifies this`mem, this`nextColour
      ensures hd.count == 0 && hd.free != NULL && hd.prev == garbage && IsColour(cf.g, nextColour)
      ensures AllSlabs(cf, mem, slabs[slab := hd], chain[slab := UpTo(cf.perSlab)], alive[slab := {}])
      ensures LiveOk(cf.g, slabs[slab := hd], alive[slab := {}], live) && Untouched(cf.g, old(mem), mem, live)
    {
      var colour := nextColour;
      NextColour();
      Carve(slab, colour);
      hd := Header(garbage, NULL, 0, colour, slab - AVAILABLE + colour + cf.g.bufctlOffset);
      NewSlabOk(cf, mem, slab, hd);
      NewSlabKeeps(cf, old(mem), mem, slabs, chain, alive, live, slab, hd, UpTo(cf.perSlab));
    }

    /** Put a new slab in front of the empty ones. */
    method LinkNew(slab: Addr, hd: Header)
      requires Listed(NULL) && NULL !in slabs && slab !in slabs && slab != NULL && hd.count == 0 && hd.free != NULL
      modifies this`slabs, this`emptyHead, this`emptyCount, this`empties
      ensures Listed(NULL) && empties == [slab] + old(empties) && Relinked(old(slabs)[slab := hd], slabs, empties)
    {
      assert ListOk(Empty) && ListOk(Partial) && ListOk(Full);
      AddedLinks(slabs, slab, hd, emptyHead, empties, partialHead, partials, fullHead, fulls);
      ghost var m := slabs[slab := hd];
      slabs := slabs[slab := hd.(next := emptyHead)];
      if emptyHead != NULL {
        slabs := slabs[emptyHead := slabs[emptyHead].(prev := slab)];
      }
      assert slabs == PushFront(m, emptyHead, slab);
      emptyHead := slab;
      emptyCount := emptyCount + 1;
      empties := [slab] + empties;
    }

    /**
     * Allocate an object. `page` is what the page allocator would give, or NULL.
     * The object is none of the allocated ones; those are not touched.
     */
    method Alloc(page: Addr, garbage: Addr) returns (b: Addr, warned: bool)
      requires Valid() && (page != NULL ==> FreshPage(page))
      modifies this
      ensures Valid() && workingSet == old(workingSet) && !warned
      ensures b == NULL <==> old(partials) == [] && old(empties) == [] && page == NULL
      ensures b == NULL ==> live == old(live) && slabs == old(slabs) && mem == old(mem)
      ensures b != NULL ==>
                && b !in old(live) && live == old(live) + {b} && Untouched(cf.g, old(mem), mem, old(live))
                && (cf.hasCtor ==> cf.constructed(Words(mem, b, ObjWords(cf))))
                && (cf.flags.redZone ==> Read(mem, b + cf.g.objSize) == RED_ZONE)
    {
      assert ListOk(Empty) && ListOk(Partial);
      warned := false;
      if partialHead == NULL && emptyHead == NULL && page == NULL {
        return NULL, false;
      }
      var slab := Choose(page, garbage);
      ghost var mem1 := mem;
      b, warned := AllocIn(slab);
      UntouchedThen(cf.g, old(mem), mem1, mem, old(live));
    }

    /** Allocate an object of a slab that has a free one. */
    method AllocIn(slab: Addr) returns (b: Addr, warned: bool)
      requires Contents() && NULL !in slabs && Listed(slab) && slab in partials && slab in slabs && chain[slab] != []
      modifies this`mem, this`slabs, this`chain, this`alive, this`live, this`partialHead, this`fullHead, this`partials, this`fulls
      ensures Contents() && Listed(NULL) && slabs.Keys == old(slabs.Keys) && !warned
      ensures b !in old(live) && b != NULL && live == old(live) + {b} && Untouched(cf.g, old(mem), mem, old(live))
      ensures cf.hasCtor ==> cf.constructed(Words(mem, b, ObjWords(cf)))
      ensures cf.flags.redZone ==> Read(mem, b + cf.g.objSize) == RED_ZONE
    {
      b := AllocFrom(slab);
      warned := HandOut(b);
      assert old(live) == live - {b};
    }

    method HandOut(b: Addr) returns (warned: bool)
      requires Contents() && b in live && FreeOk(cf, mem, b)
      modifies this`mem
      ensures Contents() && !warned && Untouched(cf.g, old(mem), mem, live - {b})
      ensures cf.hasCtor ==> cf.constructed(Words(mem, b, ObjWords(cf)))
      ensures cf.flags.redZone ==> Read(mem, b + cf.g.objSize) == RED_ZONE
    {
      warned := Dress(b);
      LiveWriteKeeps(cf, old(mem), mem, slabs, chain, alive, live, b);
    }

    /** The first partial slab, or the first empty one, which becomes partial, or a new one. */
    method Choose(page: Addr, garbage: Addr) returns (slab: Addr)
      requires Valid() && (page != NULL ==> FreshPage(page)) && (partials != [] || empties != [] || page != NULL)
      modifies this
      ensures Contents() && NULL !in slabs && IsColour(cf.g, nextColour) && Listed(slab) && slab in partials && slab in slabs && chain[slab] != []
      ensures live == old(live) && workingSet == old(workingSet) && Untouched(cf.g, old(mem), mem, live)
    {
      assert ListOk(Empty) && ListOk(Partial);
      if partialHead != NULL {
        slab := partialHead;
        assert SortedAt(slabs, empties, partials, fulls, slab);
        HasFree(cf, mem, slabs, chain, alive, slab);
        SortedMoved(slabs, slabs, empties, partials, fulls, NULL, empties, partials, fulls, slab);
      } else {
        if emptyHead == NULL {
          InitAndAddSlab(page, garbage);
        }
        slab := TakeEmpty();
      }
    }

    method TakeEmpty() returns (slab: Addr)
      requires Valid() && empties != []
      modifies this`slabs, this`emptyHead, this`partialHead, this`emptyCount, this`empties, this`partials
      ensures Contents() && NULL !in slabs && Listed(slab) && slab in partials && slab in slabs && chain[slab] != []
    {
      ghost var m := slabs;
      slab := EmptyToPartial();
      RelinkedKeeps(cf, mem, m, slabs, partials, chain, alive, live);
      HasFree(cf, mem, slabs, chain, alive, slab);
    }

    /**
     * Free an object, which the client gives back in its constructed state. The
     * other allocated objects are not touched.
     */
    method Free(b: Addr) returns (warned: bool)
      requires Valid() && b in live
      requires cf.hasCtor && !cf.flags.poison ==> cf.constructed(Words(mem, b, ObjWords(cf)))
      modifies this`mem, this`slabs, this`chain, this`alive, this`live
      modifies this`emptyHead, this`partialHead, this`fullHead, this`emptyCount, this`empties, this`partials, this`fulls
      ensures Valid() && live == old(live) - {b} && slabs.Keys == old(slabs.Keys)
      ensures Untouched(cf.g, old(mem), mem, live)
      ensures warned <==> cf.flags.redZone && old(Read(mem, b + cf.g.objSize)) != RED_ZONE
    {
      var slab := HeaderOf(b);
      LeaveFull(slab, b);
      warned := TakeBack(b, slab);
    }

    /** Put an object back in a slab of the partial list, which may leave the slab empty. */
    method TakeBack(b: Addr, slab: Addr) returns (warned: bool)
      requires Contents() && b in live && slab == HeaderOf(b) && NULL !in slabs && Listed(slab) && slab in partials && slab in slabs
      requires cf.hasCtor && !cf.flags.poison ==> cf.constructed(Words(mem, b, ObjWords(cf)))
      modifies this`mem, this`slabs, this`chain, this`alive, this`live
      modifies this`partialHead, this`emptyHead, this`partials, this`empties, this`emptyCount
      ensures Contents() && Listed(NULL) && slabs.Keys == old(slabs.Keys)
      ensures live == old(live) - {b} && Untouched(cf.g, old(mem), mem, live)
      ensures warned <==> cf.flags.redZone && old(Read(mem, b + cf.g.objSize)) != RED_ZONE
    {
      warned := PutBackListed(b, slab);
      SettleBack(slab);
    }

    method PutBackListed(b: Addr, slab: Addr) returns (warned: bool)
      requires Contents() && b in live && slab == HeaderOf(b) && NULL !in slabs && Listed(slab) && slab in slabs
      requires cf.hasCtor && !cf.flags.poison ==> cf.constructed(Words(mem, b, ObjWords(cf)))
      modifies this`mem, this`slabs, this`chain, this`alive, this`live
      ensures Contents() && Listed(slab) && slabs.Keys == old(slabs.Keys) && slabs[slab].free != NULL
      ensures live == old(live) - {b} && Untouched(cf.g, old(mem), mem, live)
      ensures warned <==> cf.flags.redZone && old(Read(mem, b + cf.g.objSize)) != RED_ZONE
    {
      assert ListOk(Empty) && ListOk(Partial) && ListOk(Full);
      warned := PutBack(b, slab);
      PoppedListed(old(slabs), slabs, slab);
    }

    method LeaveFull(slab: Addr, ghost b: Addr)
      requires Valid() && b in live && slab == HeaderOf(b)
      modifies this`slabs, this`partialHead, this`fullHead, this`partials, this`fulls
      ensures Contents() && NULL !in slabs && Listed(slab) && slab in partials && slab in slabs && slabs.Keys == old(slabs.Keys)
    {
      ghost var k := HomeOf(cf, mem, slabs, chain, alive, live, b);
      assert SortedAt(slabs, empties, partials, fulls, slab);
      if slabs[slab].free == NULL {
        FullToPartial(slab);
        RelinkedKeeps(cf, mem, old(slabs), slabs, old(fulls + partials), chain, alive, live);
      } else {
        SortedMoved(slabs, slabs, empties, partials, fulls, NULL, empties, partials, fulls, slab);
      }
    }

    /** Link a buffer into its slab's free list. */
    method PutBack(b: Addr, slab: Addr) returns (warned: bool)
      requires Contents() && b in live && slab == HeaderOf(b)
      requires cf.hasCtor && !cf.flags.poison ==> cf.constructed(Words(mem, b, ObjWords(cf)))
      modifies this`mem, this`slabs, this`chain, this`alive, this`live
      ensures Contents() && live == old(live) - {b} && Untouched(cf.g, old(mem), mem, live)
      ensures slab in old(slabs) && slab in slabs && slabs == old(slabs)[slab := slabs[slab]] && slabs[slab].free != NULL
      ensures slabs[slab].prev == old(slabs)[slab].prev && slabs[slab].next == old(slabs)[slab].next
      ensures warned <==> cf.flags.redZone && old(Read(mem, b + cf.g.objSize)) != RED_ZONE
    {
      ghost var k := HomeOf(cf, mem, slabs, chain, alive, live, b);
      warned := TakeIn(b, slabs[slab].free);
      Record(b, slab, k);
    }

    /** The slab has one allocated object less. */
    method Record(b: Addr, slab: Addr, ghost k: nat)
      requires Contents() && slab in slabs && k in alive[slab] && slab >= AVAILABLE
      requires b == Buffer(cf.g, slab, slabs[slab].colour, k) && b + cf.g.bufctlOffset == Link(cf.g, slab, slabs[slab].colour, k)
      requires b + cf.g.bufctlOffset != NULL && Read(mem, b + cf.g.bufctlOffset) == slabs[slab].free && FreeOk(cf, mem, b)
      modifies this`slabs, this`chain, this`alive, this`live
      ensures Contents() && live == old(live) - {b}
      ensures slab in slabs && slabs == old(slabs)[slab := slabs[slab]] && slabs[slab].free != NULL
      ensures slabs[slab].prev == old(slabs)[slab].prev && slabs[slab].next == old(slabs)[slab].next
    {
      FreeKeeps(cf, mem, slabs, chain, alive, live, slab, k);
      var hd := slabs[slab];
      slabs := slabs[slab := hd.(free := b + cf.g.bufctlOffset, count := hd.count - 1)];
      chain, alive, live := chain[slab := [k] + chain[slab]], alive[slab := alive[slab] - {k}], live - {b};
    }

    method TakeIn(b: Addr, next: Addr) returns (warned: bool)
      requires Contents() && b in live
      requires cf.hasCtor && !cf.flags.poison ==> cf.constructed(Words(mem, b, ObjWords(cf)))
      modifies this`mem
      ensures Contents() && Untouched(cf.g, old(mem), mem, live - {b}) && FreeOk(cf, mem, b)
      ensures Read(mem, b + cf.g.bufctlOffset) == next
      ensures warned <==> cf.flags.redZone && old(Read(mem, b + cf.g.objSize)) != RED_ZONE
    {
      warned := Undress(b, next);
      LiveWriteKeeps(cf, old(mem), mem, slabs, chain, alive, live, b);
    }

    /** A slab on the partial list is either still partial or goes to the empty list. */
    method SettleBack(slab: Addr)
      requires Contents() && NULL !in slabs && Listed(slab) && slab in partials && slab in slabs && slabs[slab].free != NULL
      modifies this`slabs, this`partialHead, this`emptyHead, this`partials, this`empties, this`emptyCount
      ensures Contents() && Listed(NULL) && slabs.Keys == old(slabs.Keys)
    {
      if slabs[slab].count == 0 {
        PartialToEmpty(slab);
        RelinkedKeeps(cf, mem, old(slabs), slabs, old(partials + empties), chain, alive, live);
      } else {
        SortedMoved(slabs, slabs, empties, partials, fulls, slab, empties, partials, fulls, slab);
      }
    }

    /** A client writes a word inside an object it holds, the link word included where the object covers it. */
    method Write(b: Addr, offset: nat, v: nat)
      requires Valid() && b in live && offset < cf.g.allocSize
      modifies this`mem
      ensures Valid() && Untouched(cf.g, old(mem), mem, live - {b}) && mem == old(mem)[b + offset := v]
    {
      WriteInside(mem, mem, b, b, b + offset, v, b + cf.g.allocSize);
      mem := mem[b + offset := v];
      LiveWriteKeeps(cf, old(mem), mem, slabs, chain, alive, live, b);
    }

    /** Release empty slabs in excess of the working set; a released page holds no allocated object. */
    method Reap() returns (released: seq<Addr>)
      requires Valid()
      modifies this`slabs, this`emptyHead, this`emptyCount, this`empties, this`chain, this`alive
      ensures Valid()
      ensures |empties| == if |old(empties)| > workingSet then workingSet else |old(empties)|
      ensures |released| + |empties| == |old(empties)|
      ensures Gone(old(slabs), slabs, released)
      ensures forall page <- released :: Vacated(old(slabs), slabs, cf.g, live, page)
    {
      released := [];
      while emptyCount > workingSet
        invariant Valid()
        invariant |released| + |empties| == |old(empties)|
        invariant |empties| >= workingSet || released == []
        invariant Gone(old(slabs), slabs, released)
        invariant forall page <- released :: Vacated(old(slabs), slabs, cf.g, live, page)
        decreases emptyCount
      {
        released := ReapOne(released, old(slabs));
      }
    }

    method ReapOne(released: seq<Addr>, ghost m0: map<Addr, Header>) returns (released1: seq<Addr>)
      requires Valid() && emptyCount > workingSet
      requires Gone(m0, slabs, released) && forall page <- released :: Vacated(m0, slabs, cf.g, live, page)
      modifies this`slabs, this`emptyHead, this`emptyCount, this`empties, this`chain, this`alive
      ensures Valid() && |empties| == |old(empties)| - 1 && emptyCount == old(emptyCount) - 1 && |released1| == |released| + 1
      ensures Gone(m0, slabs, released1) && forall page <- released1 :: Vacated(m0, slabs, cf.g, live, page)
    {
      assert ListOk(Empty);
      var page := Release();
      assert ListOk(Empty);
      StillVacated(m0, old(slabs), slabs, cf.g, live, released, page);
      released1 := released + [page];
    }

    /** Release the first empty slab. */
    method Release() returns (page: Addr)
      requires Valid() && empties != []
      modifies this`slabs, this`emptyHead, this`emptyCount, this`empties, this`chain, this`alive
      ensures Valid() && empties == old(empties)[1..] && page + AVAILABLE == old(empties)[0]
      ensures page + AVAILABLE in old(slabs) && slabs == old(slabs) - {page + AVAILABLE}
      ensures Vacated(old(slabs), slabs, cf.g, live, page)
    {
      assert ListOk(Empty);
      var slab := emptyHead;
      assert SortedAt(slabs, empties, partials, fulls, slab);
      ReleaseKeeps(cf, mem, slabs, chain, alive, live, slab);
      UnlistFirst();
      page := slab + HEADER_SIZE - SLAB_SIZE;
      chain, alive := chain - {slab}, alive - {slab};
    }

    /** Take the first slab off the empty list and forget it. */
    method UnlistFirst()
      requires Listed(NULL) && NULL !in slabs && empties != []
      modifies this`slabs, this`emptyHead, this`emptyCount, this`empties
      ensures Listed(NULL) && slabs == old(slabs) - {old(emptyHead)} && empties == old(empties)[1..]
    {
      assert ListOk(Empty) && ListOk(Partial) && ListOk(Full);
      ReleasedLinks(slabs, emptyHead, empties, partialHead, partials, fullHead, fulls);
      var slab := emptyHead;
      emptyHead := slabs[slab].next;
      emptyCount := emptyCount - 1;
      slabs := slabs - {slab};
      empties := empties[1..];
    }

    /** Carry out one request of a client that holds the objects `held`. */
    method Serve(request: Request, held: seq<Addr>) returns (held1: seq<Addr>)
      requires Valid() && Holds(held, live)
      modifies this
      ensures Valid() && Holds(held1, live)
      ensures old(live) - live <= Returned(request, held)
      ensures Untouched(cf.g, old(mem), mem, old(live) * live - Written(request, held))
    {
      held1 := held;
      match request {
        case Allocate(page, garbage) =>
          if page != NULL && (page % SLAB_SIZE != 0 || page + AVAILABLE in slabs) {
            return;
          }
          var b, warned := Alloc(page, garbage);
          if b != NULL {
            held1 := held + [b];
          }
        case Deallocate(i) =>
          if i < |held| && (cf.hasCtor && !cf.flags.poison ==> cf.constructed(Words(mem, held[i], ObjWords(cf)))) {
            WithoutMembers(held, i);
            var warned := Free(held[i]);
            held1 := held[..i] + held[i + 1..];
          }
        case Poke(i, offset, v) =>
          if i < |held| && offset < cf.g.allocSize {
            Write(held[i], offset, v);
          }
        case ReapSlabs =>
          var released := Reap();
        case Keep(n) =>
          workingSet := n;
      }
    }

    /** Over any run of requests, the objects handed out and not yet returned are distinct and exactly the allocated ones. */
    method Run(script: seq<Request>) returns (held: seq<Addr>)
      requires Valid() && live == {}
      modifies this
      ensures Valid() && Holds(held, live)
    {
      held := [];
      for i := 0 to |script|
        invariant Valid() && Holds(held, live)
      {
        held := Serve(script[i], held);
      }
    }
  }

  datatype Request =
    | Allocate(page: Addr, garbage: Addr)
    | Deallocate(i: nat)
    | Poke(i: nat, offset: nat, v: nat)
    | ReapSlabs
    | Keep(n: nat)

  ghost predicate Holds(held: seq<Addr>, live: set<Addr>) {
    NoDup(held) && forall b :: b in held <==> b in live
  }

  ghost function Returned(request: Request, held: seq<Addr>): set<Addr> {
    if request.Deallocate? && request.i < |held| then {held[request.i]} else {}
  }

  ghost function Written(request: Request, held: seq<Addr>): set<Addr> {
    if request.Poke? && request.i < |held| then {held[request.i]} else {}
  }
}
