/**
 * How a cache cuts its pages into buffers: sizes, alignment, colours and the
 * place of the link word that chains free buffers.
 */
module SlabGeometry {

  const SLAB_SIZE := 4096
  const HEADER_SIZE := 24
  const WORD := 4

  /** The bytes of a page that hold buffers: the header is at the end. */
  const AVAILABLE := SLAB_SIZE - HEADER_SIZE

  datatype Flags = Flags(hwcacheAlign: bool, compact: bool, redZone: bool, poison: bool)

  datatype Geometry = Geometry(objSize: nat, allocSize: nat, alignment: nat, bufctlOffset: nat, maxColour: nat)

  function AlignEnd(x: nat): nat {
    (x + WORD - 1) / WORD * WORD
  }

  function ComputeAlignment(alignment: nat, flags: Flags, dcache: nat): nat {
    var asked := if alignment == 0 then WORD else alignment;
    AlignEnd(if flags.hwcacheAlign && asked < dcache then dcache else asked)
  }

  /** The object, with a link word and a red zone word after it where they need room of their own. */
  function Reserved(objSize: nat, flags: Flags, hasCtor: bool): nat {
    if flags.poison && flags.redZone then objSize + WORD + WORD
    else if flags.poison || flags.redZone then objSize + WORD
    else if hasCtor && !flags.compact then objSize + WORD
    else objSize
  }

  function Padded(size: nat, alignment: nat): (r: nat)
    requires alignment > 0
    ensures size <= r < size + alignment
  {
    if size % alignment != 0 then size + (alignment - size % alignment) else size
  }

  /** The number of buffers the size computation expects on a slab. */
  function PerSlab(allocSize: nat): nat
    requires allocSize > 0
  {
    AVAILABLE / allocSize
  }

  lemma PerSlabBounds(allocSize: nat)
    requires allocSize > 0
    ensures var n := PerSlab(allocSize); n * allocSize <= AVAILABLE < n * allocSize + allocSize
    ensures PerSlab(allocSize) >= 1 <==> allocSize <= AVAILABLE
  {
    DivMod(AVAILABLE, allocSize);
    if PerSlab(allocSize) >= 1 {
      AtLeast(allocSize, PerSlab(allocSize));
    }
  }

  /** The largest colour: the unused bytes, in whole multiples of the alignment. */
  function MaxColour(allocSize: nat, alignment: nat): (c: nat)
    requires allocSize > 0 && alignment > 0
  {
    Wasted(allocSize) / alignment * alignment
  }

  function Wasted(allocSize: nat): nat
    requires allocSize > 0
  {
    PerSlabBounds(allocSize);
    AVAILABLE - PerSlab(allocSize) * allocSize
  }

  function CacheInit(size: nat, alignment: nat, flags: Flags, hasCtor: bool, dcache: nat): Geometry
    requires size >= WORD
  {
    var align := ComputeAlignment(alignment, flags, dcache);
    var objSize := AlignEnd(size);
    var allocSize := Padded(Reserved(objSize, flags, hasCtor), align);
    Geometry(objSize, allocSize, align, allocSize - WORD, MaxColour(allocSize, align))
  }

  /** What the rest of the allocator relies on. */
  ghost predicate Sound(g: Geometry) {
    && WORD <= g.objSize <= g.allocSize && g.objSize % WORD == 0
    && WORD <= g.alignment && g.alignment % WORD == 0
    && g.allocSize % g.alignment == 0 && g.allocSize % WORD == 0
    && g.bufctlOffset == g.allocSize - WORD
    && g.maxColour % g.alignment == 0 && g.maxColour % WORD == 0
    && PerSlab(g.allocSize) * g.allocSize + g.maxColour <= AVAILABLE
  }

  // ---- Division

  lemma DivMod(x: nat, a: nat)
    requires a > 0
    ensures x == x / a * a + x % a
  {}

  lemma AtLeast(a: nat, d: nat)
    requires d > 0
    ensures a * d >= a
  {}

  lemma DivUnique(x: nat, a: nat, q: nat, r: nat)
    requires a > 0 && x == q * a + r && r < a
    ensures x / a == q && x % a == r
  {
    DivMod(x, a);
    var d: int := x / a - q;
    assert d * a == r - x % a;
    if d > 0 {
      AtLeast(a, d);
    }
  }

  lemma MultipleOfMultiple(x: nat, a: nat, w: nat)
    requires a > 0 && w > 0 && x % a == 0 && a % w == 0
    ensures x % w == 0
  {
    DivMod(x, a);
    DivMod(a, w);
    var q, r := x / a, a / w;
    assert q * (r * w) == q * r * w;
    DivUnique(x, w, q * r, 0);
  }

  lemma PaddedMultiple(size: nat, a: nat)
    requires a > 0
    ensures Padded(size, a) % a == 0
  {
    if size % a != 0 {
      DivMod(size, a);
      var q := size / a;
      assert Padded(size, a) == q * a + a == (q + 1) * a;
      DivUnique(Padded(size, a), a, q + 1, 0);
    }
  }

  /** Whatever is asked for, the geometry is sound. */
  lemma CacheInitSound(size: nat, alignment: nat, flags: Flags, hasCtor: bool, dcache: nat)
    requires size >= WORD
    ensures Sound(CacheInit(size, alignment, flags, hasCtor, dcache))
  {
    var g := CacheInit(size, alignment, flags, hasCtor, dcache);
    WholeWords(size);
    WholeWords(if alignment == 0 then WORD else alignment);
    WholeWords(dcache);
    PaddedMultiple(Reserved(g.objSize, flags, hasCtor), g.alignment);
    MaxColourMultiple(g.allocSize, g.alignment);
    MultipleOfMultiple(g.allocSize, g.alignment, WORD);
    MultipleOfMultiple(g.maxColour, g.alignment, WORD);
  }

  lemma WholeWords(x: nat)
    ensures x <= AlignEnd(x) < x + WORD && AlignEnd(x) % WORD == 0
  {}

  lemma MaxColourMultiple(allocSize: nat, alignment: nat)
    requires allocSize > 0 && alignment > 0
    ensures MaxColour(allocSize, alignment) % alignment == 0
    ensures PerSlab(allocSize) * allocSize + MaxColour(allocSize, alignment) <= AVAILABLE
  {
    DivMod(Wasted(allocSize), alignment);
    DivUnique(MaxColour(allocSize, alignment), alignment, Wasted(allocSize) / alignment, 0);
  }

  /** The size of a cache line as the CPU reports it, in units of 8 bytes, or the one that is taken if it does not. */
  function CacheLine(reported: bool, units: nat): (r: nat)
    ensures r % WORD == 0
  {
    if reported then units * 8 else 32
  }

  /**
   * The request is met exactly when it divides a word or is a whole number of
   * words; below a cache line that is asked for, when it divides the line.
   */
  lemma AlignmentMet(alignment: nat, flags: Flags, reported: bool, units: nat)
    requires alignment > 0
    ensures var line := CacheLine(reported, units);
            ComputeAlignment(alignment, flags, line) % alignment == 0 <==>
              if flags.hwcacheAlign && alignment < line then line % alignment == 0
              else alignment == 1 || alignment == 2 || alignment % WORD == 0
  {
    var line := CacheLine(reported, units);
    WholeAlready(line);
    if !(flags.hwcacheAlign && alignment < line) {
      var r := ComputeAlignment(alignment, flags, line);
      WholeWords(alignment);
      if alignment < WORD {
        assert r == WORD;
      } else {
        DivUnique(r, alignment, 1, r - alignment);
      }
    }
  }

  /**
   * A cache line that is asked for is met exactly when the alignment asked for is
   * no larger, or is less than a word short of a whole number of lines.
   */
  lemma CacheLineMet(alignment: nat, flags: Flags, reported: bool, units: nat)
    requires flags.hwcacheAlign && (reported ==> units > 0)
    ensures var line := CacheLine(reported, units);
            ComputeAlignment(alignment, flags, line) % line == 0 <==>
              alignment <= line || alignment % line == 0 || alignment % line > line - WORD
  {
    var line := CacheLine(reported, units);
    WholeAlready(line);
    if alignment <= line {
      DivUnique(line, line, 1, 0);
    } else {
      RoundedUp(alignment, line);
    }
  }

  lemma WholeAlready(x: nat)
    requires x % WORD == 0
    ensures AlignEnd(x) == x
  {}

  /** Rounding up reaches a whole number of lines from less than a word below it. */
  lemma RoundedUp(x: nat, line: nat)
    requires line >= WORD && line % WORD == 0
    ensures AlignEnd(x) % line == 0 <==> x % line == 0 || x % line > line - WORD
  {
    DivMod(x, line);
    var q, r := x / line, x % line;
    DivUnique(q * line, line, q, 0);
    MultipleOfMultiple(q * line, line, WORD);
    AddWhole(q * line, r);
    EndOfLine(q, line, r, AlignEnd(r));
  }

  lemma EndOfLine(q: nat, line: nat, r: nat, end: nat)
    requires line >= WORD && line % WORD == 0 && r < line && end == AlignEnd(r)
    ensures (q * line + end) % line == 0 <==> r == 0 || r > line - WORD
  {
    WholeWords(r);
    if end == line {
      assert (q + 1) * line == q * line + line;
      DivUnique(q * line + end, line, q + 1, 0);
    } else {
      DivUnique(q * line + end, line, q, end);
    }
  }

  lemma AddWhole(a: nat, r: nat)
    requires a % WORD == 0
    ensures AlignEnd(a + r) == a + AlignEnd(r)
  {}

  /**
   * Where the link word is: after the object, or, when it has no room of its own,
   * inside the object unless alignment leaves room. With both debugging options
   * it is also beyond the red zone word.
   */
  lemma LinkOutsideObject(size: nat, alignment: nat, flags: Flags, hasCtor: bool, dcache: nat)
    requires size >= WORD
    ensures var g := CacheInit(size, alignment, flags, hasCtor, dcache);
            && (flags.poison || flags.redZone || (hasCtor && !flags.compact) ==> g.objSize <= g.bufctlOffset)
            && (flags.poison && flags.redZone ==> g.objSize + WORD <= g.bufctlOffset)
            && (!flags.poison && !flags.redZone && !(hasCtor && !flags.compact) ==>
                  (g.objSize <= g.bufctlOffset <==> g.objSize % g.alignment != 0))
  {
    CacheInitSound(size, alignment, flags, hasCtor, dcache);
    var g := CacheInit(size, alignment, flags, hasCtor, dcache);
  }

  // ---- Buffers on a page

  /** The offset of the k-th buffer: each starts where the one before ends. */
  function BufferAt(g: Geometry, colour: nat, k: nat): nat {
    if k == 0 then colour else BufferAt(g, colour, k - 1) + g.allocSize
  }

  /** The colours a cache goes through: from zero, by steps of the alignment, up to the largest. */
  predicate IsColour(g: Geometry, colour: nat)
    decreases colour
  {
    colour <= g.maxColour && (colour == 0 || (0 < g.alignment <= colour && IsColour(g, colour - g.alignment)))
  }

  lemma {:induction false} BufferAtIs(g: Geometry, colour: nat, k: nat)
    ensures BufferAt(g, colour, k) == colour + k * g.allocSize
  {
    if k > 0 {
      BufferAtIs(g, colour, k - 1);
      assert k * g.allocSize == (k - 1) * g.allocSize + g.allocSize;
    }
  }

  lemma {:induction false} BuffersApart(g: Geometry, colour: nat, j: nat, k: nat)
    requires j < k
    ensures BufferAt(g, colour, j) + g.allocSize <= BufferAt(g, colour, k)
  {
    if j < k - 1 {
      BuffersApart(g, colour, j, k - 1);
    }
  }

  lemma {:induction false} ColourMultiple(g: Geometry, colour: nat)
    requires g.alignment > 0 && IsColour(g, colour)
    ensures colour % g.alignment == 0
    decreases colour
  {
    if colour > 0 {
      ColourMultiple(g, colour - g.alignment);
      DivMod(colour - g.alignment, g.alignment);
      var q := (colour - g.alignment) / g.alignment;
      assert (q + 1) * g.alignment == q * g.alignment + g.alignment;
      DivUnique(colour, g.alignment, q + 1, 0);
    }
  }

  /** Buffers are aligned relative to their page. */
  lemma BuffersAligned(g: Geometry, colour: nat, k: nat)
    requires g.alignment > 0 && g.allocSize % g.alignment == 0 && IsColour(g, colour)
    ensures BufferAt(g, colour, k) % g.alignment == 0
  {
    BufferAtIs(g, colour, k);
    ColourMultiple(g, colour);
    DivMod(colour, g.alignment);
    DivMod(g.allocSize, g.alignment);
    var c, a := colour / g.alignment, g.allocSize / g.alignment;
    Regroup(c, k, a, g.alignment);
    DivUnique(BufferAt(g, colour, k), g.alignment, c + k * a, 0);
  }

  lemma Regroup(c: nat, k: nat, a: nat, w: nat)
    ensures (c + k * a) * w == c * w + k * (a * w)
  {
    assert k * a * w == k * (a * w);
  }

  lemma Rising(k: nat, n: nat, a: nat)
    requires k <= n
    ensures k * a <= n * a
  {}

  /** The colour after this one is a colour. */
  ghost predicate StepsOn(g: Geometry, colour: nat) {
    colour < g.maxColour ==> IsColour(g, colour + g.alignment)
  }

  /** The k-th of n buffers lies before the header, and the next link word does not exactly if it is the last. */
  ghost predicate FitsAt(g: Geometry, n: nat, colour: nat, k: nat) {
    && BufferAt(g, colour, k) + g.allocSize <= AVAILABLE
    && (BufferAt(g, colour, k) + g.allocSize + g.bufctlOffset >= AVAILABLE <==> k + 1 >= n)
  }

  /** Whatever its colour, a slab holds exactly n buffers, all before the header. */
  ghost predicate Layout(g: Geometry, n: nat) {
    && n > 0
    && (forall colour {:trigger StepsOn(g, colour)} :: IsColour(g, colour) ==> StepsOn(g, colour))
    && (forall colour, k {:trigger FitsAt(g, n, colour, k)} :: IsColour(g, colour) && 0 <= k < n ==> FitsAt(g, n, colour, k))
  }

  lemma SoundLayout(g: Geometry)
    requires Sound(g) && g.allocSize <= AVAILABLE
    ensures Layout(g, PerSlab(g.allocSize))
  {
    var n := PerSlab(g.allocSize);
    PerSlabBounds(g.allocSize);
    forall colour: nat | IsColour(g, colour) ensures StepsOn(g, colour) {
      if colour < g.maxColour {
        ColourSteps(g, colour);
      }
    }
    forall colour: nat, k: nat | IsColour(g, colour) && k < n ensures FitsAt(g, n, colour, k) {
      CarvingStops(g, colour, k);
    }
  }

  lemma ColourSteps(g: Geometry, colour: nat)
    requires Sound(g) && IsColour(g, colour) && colour < g.maxColour
    ensures IsColour(g, colour + g.alignment)
  {
    ColourMultiple(g, colour);
    DivMod(colour, g.alignment);
    DivMod(g.maxColour, g.alignment);
    var a, b := colour / g.alignment, g.maxColour / g.alignment;
    if b <= a {
      Rising(b, a, g.alignment);
    }
    Rising(a + 1, b, g.alignment);
    assert (a + 1) * g.alignment == a * g.alignment + g.alignment;
  }

  /** The k-th buffer ends before the header, and the link word after it runs into the header exactly if it is the last. */
  lemma CarvingStops(g: Geometry, colour: nat, k: nat)
    requires Sound(g) && IsColour(g, colour) && k < PerSlab(g.allocSize)
    ensures FitsAt(g, PerSlab(g.allocSize), colour, k)
  {
    var n := PerSlab(g.allocSize);
    BufferAtIs(g, colour, k);
    PerSlabBounds(g.allocSize);
    assert (k + 1) * g.allocSize == k * g.allocSize + g.allocSize;
    Rising(k + 1, n, g.allocSize);
    if k + 1 < n {
      assert (k + 2) * g.allocSize == (k + 1) * g.allocSize + g.allocSize;
      Rising(k + 2, n, g.allocSize);
    } else {
      ColourMultiple(g, colour);
      MultipleOfMultiple(colour, g.alignment, WORD);
      EndIsWhole(colour, k + 2, g.allocSize);
    }
  }

  /** Everything is a whole number of words, so a buffer that does not fit is at least a word too long. */
  lemma EndIsWhole(colour: nat, k: nat, allocSize: nat)
    requires colour % WORD == 0 && allocSize % WORD == 0 && colour + k * allocSize > AVAILABLE
    ensures colour + k * allocSize >= AVAILABLE + WORD
  {
    DivMod(colour, WORD);
    DivMod(allocSize, WORD);
    Regroup(colour / WORD, k, allocSize / WORD, WORD);
    DivUnique(colour + k * allocSize, WORD, colour / WORD + k * (allocSize / WORD), 0);
  }

  /**
   * A slab always gets a first buffer, even one too large for it: that buffer
   * stays clear of the header exactly when the size computation expects one.
   */
  lemma FirstFitsIff(g: Geometry, colour: nat)
    requires Sound(g) && IsColour(g, colour)
    ensures BufferAt(g, colour, 0) + g.allocSize <= AVAILABLE <==> PerSlab(g.allocSize) >= 1
  {
    PerSlabBounds(g.allocSize);
    if PerSlab(g.allocSize) >= 1 {
      CarvingStops(g, colour, 0);
    }
  }
}
