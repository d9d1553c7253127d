/**
 * File paths from tar headers, made canonical: absolute, without empty or "."
 * components, and refused if they contain ".." or an unsupported character.
 */
module TarPath {

  type Byte = b: int | 0 <= b < 256

  const NUL: Byte := 0
  const SLASH: Byte := 47
  const DOT: Byte := 46

  /** Plain characters are signed: those from 128 on are negative, which makes them control characters. */
  function Signed(b: Byte): int {
    if b < 128 then b else b - 256
  }

  predicate IsValidFilenameChar(b: Byte) {
    var c := Signed(b);
    && c >= 32 && c != 47 && c != 58 && c != 92 && c != 42 && c != 63
    && c != 124 && c != 34 && c != 60 && c != 62 && c != 127
  }

  predicate PathChar(b: Byte) {
    b == SLASH || IsValidFilenameChar(b)
  }

  // ---- Components of a path

  /** Among the first n characters, what follows the last slash. */
  function Current(s: seq<Byte>, n: nat): seq<Byte>
    requires n <= |s|
  {
    if n == 0 then [] else if s[n - 1] == SLASH then [] else Current(s, n - 1) + [s[n - 1]]
  }

  /** Among the first n characters, the components that a slash has ended. */
  function Ended(s: seq<Byte>, n: nat): seq<seq<Byte>>
    requires n <= |s|
  {
    if n == 0 then []
    else if s[n - 1] == SLASH then Ended(s, n - 1) + [Current(s, n - 1)]
    else Ended(s, n - 1)
  }

  function Components(s: seq<Byte>): seq<seq<Byte>> {
    Ended(s, |s|) + [Current(s, |s|)]
  }

  predicate IsDot(c: seq<Byte>) {
    |c| == 1 && c[0] == DOT
  }

  predicate IsDots(c: seq<Byte>) {
    |c| == 2 && c[0] == DOT && c[1] == DOT
  }

  predicate Dropped(c: seq<Byte>) {
    |c| == 0 || IsDot(c)
  }

  function Piece(c: seq<Byte>): seq<Byte> {
    if Dropped(c) then [] else [SLASH] + c
  }

  /** Each of the first n components that is kept, with a slash before it. */
  function Joined(cs: seq<seq<Byte>>, n: nat): seq<Byte>
    requires n <= |cs|
  {
    if n == 0 then [] else Joined(cs, n - 1) + Piece(cs[n - 1])
  }

  function JoinAll(cs: seq<seq<Byte>>): seq<Byte> {
    Joined(cs, |cs|)
  }

  predicate ValidChars(s: seq<Byte>, n: nat)
    requires n <= |s|
  {
    forall i :: 0 <= i < n ==> PathChar(s[i])
  }

  predicate NoParent(cs: seq<seq<Byte>>) {
    forall i {:trigger IsDots(cs[i])} :: 0 <= i < |cs| ==> !IsDots(cs[i])
  }

  /** The path can be made canonical. */
  predicate Acceptable(s: seq<Byte>) {
    ValidChars(s, |s|) && NoParent(Components(s))
  }

  function Canonical(s: seq<Byte>): seq<Byte> {
    JoinAll(Components(s))
  }

  /** The length of the text in a field: up to the first NUL from i on, if there is one. */
  function TextEnd(field: seq<Byte>, i: nat): (n: nat)
    requires i <= |field|
    ensures i <= n <= |field| && (n < |field| ==> field[n] == NUL) && forall k :: i <= k < n ==> field[k] != NUL
    decreases |field| - i
  {
    if i == |field| || field[i] == NUL then i else TextEnd(field, i + 1)
  }

  function TextOf(field: seq<Byte>): seq<Byte> {
    field[..TextEnd(field, 0)]
  }

  // ---- Properties

  lemma {:induction false} SamePrefix(s: seq<Byte>, t: seq<Byte>, n: nat)
    requires n <= |s| && n <= |t| && forall i :: 0 <= i < n ==> s[i] == t[i]
    ensures Current(s, n) == Current(t, n) && Ended(s, n) == Ended(t, n)
  {
    if n > 0 {
      SamePrefix(s, t, n - 1);
    }
  }

  /** Splitting goes on after a slash as if the path started there. */
  lemma {:induction false} AfterTheSlash(s: seq<Byte>, a: seq<Byte>, b: seq<Byte>, n: nat)
    requires n <= |b| && |s| == |a| + 1 + |b| && s[|a|] == SLASH
    requires (forall i :: 0 <= i < |a| ==> s[i] == a[i]) && (forall i :: 0 <= i < |b| ==> s[|a| + 1 + i] == b[i])
    ensures Current(s, |a| + 1 + n) == Current(b, n) && Ended(s, |a| + 1 + n) == Components(a) + Ended(b, n)
  {
    if n == 0 {
      SamePrefix(s, a, |a|);
    } else {
      AfterTheSlash(s, a, b, n - 1);
      assert s[|a| + 1 + (n - 1)] == b[n - 1];
    }
  }

  lemma ComponentsAt(a: seq<Byte>, b: seq<Byte>)
    ensures Components(a + [SLASH] + b) == Components(a) + Components(b)
  {
    AfterTheSlash(a + [SLASH] + b, a, b, |b|);
  }

  lemma {:induction false} SameJoined(a: seq<seq<Byte>>, b: seq<seq<Byte>>, n: nat)
    requires n <= |a| && n <= |b| && forall i :: 0 <= i < n ==> a[i] == b[i]
    ensures Joined(a, n) == Joined(b, n)
  {
    if n > 0 {
      SameJoined(a, b, n - 1);
    }
  }

  lemma {:induction false} JoinedBoth(cs: seq<seq<Byte>>, a: seq<seq<Byte>>, b: seq<seq<Byte>>)
    requires cs == a + b
    ensures JoinAll(cs) == JoinAll(a) + JoinAll(b)
    decreases |b|
  {
    if b == [] {
      assert cs == a;
      NothingMore(JoinAll(a));
    } else {
      var init, last := b[..|b| - 1], b[|b| - 1];
      assert b == init + [last] && cs == (a + init) + [last];
      JoinedBoth(a + init, a, init);
      OneOn(cs, a, b, a + init, init, last);
    }
  }

  /** One component more on both sides. */
  lemma OneOn(cs: seq<seq<Byte>>, a: seq<seq<Byte>>, b: seq<seq<Byte>>, both: seq<seq<Byte>>, init: seq<seq<Byte>>, last: seq<Byte>)
    requires b == init + [last] && cs == both + [last] && JoinAll(both) == JoinAll(a) + JoinAll(init)
    ensures JoinAll(cs) == JoinAll(a) + JoinAll(b)
  {
    JoinedMore(both, last);
    JoinedMore(init, last);
    Associate(JoinAll(a), JoinAll(init), Piece(last));
  }

  lemma JoinedAt(cs: seq<seq<Byte>>, n: nat)
    requires 0 < n <= |cs|
    ensures Joined(cs, n) == Joined(cs, n - 1) + Piece(cs[n - 1])
  {}

  lemma JoinedMore(cs: seq<seq<Byte>>, c: seq<Byte>)
    ensures JoinAll(cs + [c]) == JoinAll(cs) + Piece(c)
  {
    SameJoined(cs + [c], cs, |cs|);
  }

  lemma NoParentAdd(a: seq<seq<Byte>>, b: seq<seq<Byte>>)
    ensures NoParent(a + b) <==> NoParent(a) && NoParent(b)
  {
    if NoParent(a + b) {
      forall i | 0 <= i < |a| ensures !IsDots(a[i]) {
        assert !IsDots((a + b)[i]);
      }
      forall i | 0 <= i < |b| ensures !IsDots(b[i]) {
        assert !IsDots((a + b)[|a| + i]);
      }
    }
  }

  lemma ValidCharsAdd(a: seq<Byte>, b: seq<Byte>)
    ensures var s := a + [SLASH] + b; ValidChars(s, |s|) <==> ValidChars(a, |a|) && ValidChars(b, |b|)
  {
    var s := a + [SLASH] + b;
    if ValidChars(s, |s|) {
      forall i | 0 <= i < |a| ensures PathChar(a[i]) {
        assert PathChar(s[i]);
      }
      forall i | 0 <= i < |b| ensures PathChar(b[i]) {
        assert PathChar(s[|a| + 1 + i]);
      }
    }
  }

  lemma BothParts(cs: seq<seq<Byte>>, a: seq<seq<Byte>>, b: seq<seq<Byte>>)
    requires cs == a + b
    ensures JoinAll(cs) == JoinAll(a) + JoinAll(b)
    ensures NoParent(cs) <==> NoParent(a) && NoParent(b)
  {
    JoinedBoth(cs, a, b);
    NoParentAdd(a, b);
  }

  /** A path in two parts is made canonical part by part. */
  lemma CanonicalParts(a: seq<Byte>, b: seq<Byte>)
    ensures Canonical(a + [SLASH] + b) == Canonical(a) + Canonical(b)
    ensures Acceptable(a + [SLASH] + b) <==> Acceptable(a) && Acceptable(b)
  {
    ComponentsAt(a, b);
    BothParts(Components(a + [SLASH] + b), Components(a), Components(b));
    ValidCharsAdd(a, b);
  }

  lemma JoinedLength(cs: seq<seq<Byte>>, c: seq<Byte>)
    ensures |JoinAll(cs + [c])| <= |JoinAll(cs)| + 1 + |c|
  {
    JoinedMore(cs, c);
  }

  lemma LengthStep(ended: seq<seq<Byte>>, cur: seq<Byte>, c: Byte, ended1: seq<seq<Byte>>, cur1: seq<Byte>, n: nat)
    requires |JoinAll(ended)| + |cur| < n
    requires if c == SLASH then ended1 == ended + [cur] && cur1 == [] else ended1 == ended && cur1 == cur + [c]
    ensures |JoinAll(ended1)| + |cur1| <= n
  {
    JoinedLength(ended, cur);
  }

  lemma PartsAt(s: seq<Byte>, n: nat)
    requires 0 < n <= |s|
    ensures var ended, cur := Ended(s, n - 1), Current(s, n - 1);
            if s[n - 1] == SLASH then Ended(s, n) == ended + [cur] && Current(s, n) == []
            else Ended(s, n) == ended && Current(s, n) == cur + [s[n - 1]]
  {}

  lemma {:induction false} OutputLength(s: seq<Byte>, n: nat)
    requires n <= |s|
    ensures |JoinAll(Ended(s, n))| + |Current(s, n)| <= n
  {
    if n > 0 {
      OutputLength(s, n - 1);
      PartsAt(s, n);
      LengthStep(Ended(s, n - 1), Current(s, n - 1), s[n - 1], Ended(s, n), Current(s, n), n);
    }
  }

  /** The canonical path is at most one longer. */
  lemma CanonicalLength(s: seq<Byte>)
    ensures |Canonical(s)| <= |s| + 1
  {
    OutputLength(s, |s|);
    JoinedMore(Ended(s, |s|), Current(s, |s|));
  }

  function Kept(cs: seq<seq<Byte>>, n: nat): seq<seq<Byte>>
    requires n <= |cs|
  {
    if n == 0 then [] else Kept(cs, n - 1) + if Dropped(cs[n - 1]) then [] else [cs[n - 1]]
  }

  lemma KeptAt(cs: seq<seq<Byte>>, n: nat)
    requires 0 < n <= |cs|
    ensures Kept(cs, n) == Kept(cs, n - 1) + if Dropped(cs[n - 1]) then [] else [cs[n - 1]]
  {}

  lemma {:induction false} JoinedKept(cs: seq<seq<Byte>>, n: nat)
    requires n <= |cs|
    ensures JoinAll(Kept(cs, n)) == Joined(cs, n)
  {
    if n > 0 {
      JoinedKept(cs, n - 1);
      KeptOne(cs, n, Kept(cs, n - 1));
    }
  }

  lemma KeptOne(cs: seq<seq<Byte>>, n: nat, kept: seq<seq<Byte>>)
    requires 0 < n <= |cs| && kept == Kept(cs, n - 1) && JoinAll(kept) == Joined(cs, n - 1)
    ensures JoinAll(Kept(cs, n)) == Joined(cs, n)
  {
    KeptAt(cs, n);
    JoinedAt(cs, n);
    JoinedKeptMore(kept, cs[n - 1]);
  }

  lemma JoinedKeptMore(kept: seq<seq<Byte>>, c: seq<Byte>)
    ensures var more := kept + if Dropped(c) then [] else [c]; JoinAll(more) == JoinAll(kept) + Piece(c)
  {
    if Dropped(c) {
      assert kept + [] == kept;
    } else {
      JoinedMore(kept, c);
    }
  }

  predicate NoSlash(c: seq<Byte>) {
    forall i :: 0 <= i < |c| ==> c[i] != SLASH
  }

  predicate AllNoSlash(cs: seq<seq<Byte>>) {
    forall i {:trigger NoSlash(cs[i])} :: 0 <= i < |cs| ==> NoSlash(cs[i])
  }

  lemma {:induction false} ComponentsNoSlash(s: seq<Byte>, n: nat)
    requires n <= |s|
    ensures NoSlash(Current(s, n)) && AllNoSlash(Ended(s, n))
  {
    if n > 0 {
      ComponentsNoSlash(s, n - 1);
    }
  }

  lemma {:induction false} SingleComponent(c: seq<Byte>, n: nat)
    requires NoSlash(c) && n <= |c|
    ensures Current(c, n) == c[..n] && Ended(c, n) == []
  {
    if n > 0 {
      SingleComponent(c, n - 1);
      assert c[..n] == c[..n - 1] + [c[n - 1]];
    }
  }

  /** A component without slash, after one, is the last component. */
  lemma OneMoreComponent(s: seq<Byte>, c: seq<Byte>)
    requires NoSlash(c)
    ensures Components(s + [SLASH] + c) == Components(s) + [c]
  {
    ComponentsAt(s, c);
    SingleComponent(c, |c|);
    assert c[..|c|] == c;
  }

  /** Splitting a joined path gives back the components that were kept, after the empty one before the first slash. */
  lemma {:induction false} SplitJoined(cs: seq<seq<Byte>>, n: nat)
    requires AllNoSlash(cs) && n <= |cs|
    ensures SplitsBack(cs, n)
  {
    if n == 0 {
      NoComponents();
    } else {
      SplitJoined(cs, n - 1);
      SplitOne(cs, n);
    }
  }

  /** Splitting the joined components gives back those that are kept. */
  ghost predicate SplitsBack(cs: seq<seq<Byte>>, n: nat)
    requires n <= |cs|
  {
    Components(Joined(cs, n)) == [[]] + Kept(cs, n)
  }

  lemma SplitOne(cs: seq<seq<Byte>>, n: nat)
    requires AllNoSlash(cs) && 0 < n <= |cs| && SplitsBack(cs, n - 1)
    ensures SplitsBack(cs, n)
  {
    JoinedAt(cs, n);
    KeptAt(cs, n);
    assert NoSlash(cs[n - 1]);
    SplitPiece(Joined(cs, n - 1), Kept(cs, n - 1), cs[n - 1], Joined(cs, n), Kept(cs, n));
  }

  lemma NoComponents()
    ensures Components([]) == [[]]
  {}

  lemma SplitPiece(s: seq<Byte>, kept: seq<seq<Byte>>, c: seq<Byte>, s1: seq<Byte>, kept1: seq<seq<Byte>>)
    requires Components(s) == [[]] + kept && NoSlash(c)
    requires s1 == s + Piece(c) && kept1 == kept + if Dropped(c) then [] else [c]
    ensures Components(s1) == [[]] + kept1
  {
    if Dropped(c) {
      assert s + [] == s && kept + [] == kept;
    } else {
      SplitMore(s, kept, c);
    }
  }

  lemma SplitMore(path: seq<Byte>, kept: seq<seq<Byte>>, last: seq<Byte>)
    requires Components(path) == [[]] + kept && NoSlash(last)
    ensures Components(path + ([SLASH] + last)) == [[]] + (kept + [last])
  {
    Associate(path, [SLASH], last);
    OneMoreComponent(path, last);
    AssociateComponents([[]], kept, [last]);
  }

  lemma AssociateComponents(a: seq<seq<Byte>>, b: seq<seq<Byte>>, c: seq<seq<Byte>>)
    ensures a + (b + c) == a + b + c
  {}

  lemma SplitCanonical(s: seq<Byte>)
    ensures Components(Canonical(s)) == [[]] + Kept(Components(s), |Components(s)|)
  {
    var cs := Components(s);
    ComponentsNoSlash(s, |s|);
    assert AllNoSlash(cs) by {
      forall i | 0 <= i < |cs| ensures NoSlash(cs[i]) {
        assert i < |Ended(s, |s|)| ==> NoSlash(Ended(s, |s|)[i]);
      }
    }
    SplitJoined(cs, |cs|);
  }

  /** Making a canonical path canonical changes nothing. */
  lemma CanonicalTwice(s: seq<Byte>)
    ensures Canonical(Canonical(s)) == Canonical(s)
  {
    var cs := Components(s);
    var kept := Kept(cs, |cs|);
    SplitCanonical(s);
    LeadingEmpty(kept);
    JoinedKept(cs, |cs|);
  }

  lemma LeadingEmpty(cs: seq<seq<Byte>>)
    ensures JoinAll([[]] + cs) == JoinAll(cs)
  {
    JoinedBoth([[]] + cs, [[]], cs);
    assert Joined([[]], 1) == Joined([[]], 0) + Piece([]) == [];
  }

  lemma {:induction false} KeptFrom(cs: seq<seq<Byte>>, n: nat, i: nat)
    requires n <= |cs| && i < |Kept(cs, n)|
    ensures !Dropped(Kept(cs, n)[i]) && (NoParent(cs) ==> !IsDots(Kept(cs, n)[i]))
  {
    if n > 0 {
      if i < |Kept(cs, n - 1)| {
        KeptFrom(cs, n - 1, i);
        assert Kept(cs, n)[i] == Kept(cs, n - 1)[i];
      } else {
        assert Kept(cs, n)[i] == cs[n - 1];
        assert NoParent(cs) ==> !IsDots(cs[n - 1]);
      }
    }
  }

  /** No component of a canonical path but the first is empty or ".", and none is ".." if the path was acceptable. */
  lemma CanonicalComponents(s: seq<Byte>, i: nat)
    requires 0 < i < |Components(Canonical(s))|
    ensures !Dropped(Components(Canonical(s))[i])
    ensures NoParent(Components(s)) ==> !IsDots(Components(Canonical(s))[i])
  {
    var cs := Components(s);
    SplitCanonical(s);
    KeptFrom(cs, |cs|, i - 1);
    assert Components(Canonical(s))[i] == Kept(cs, |cs|)[i - 1];
  }

  // ---- The sanitizer

  datatype State = AfterSlash | Dot1 | Dot2 | InName

  /** What the part of a component read so far has led to. */
  function StateOf(c: seq<Byte>): State {
    if |c| == 0 then AfterSlash else if IsDot(c) then Dot1 else if IsDots(c) then Dot2 else InName
  }

  /** What has been written of it. */
  function Shown(c: seq<Byte>): seq<Byte> {
    if StateOf(c) == InName then [SLASH] + c else []
  }

  /** Everything written for the first n characters. */
  function Output(s: seq<Byte>, n: nat): seq<Byte>
    requires n <= |s|
  {
    JoinAll(Ended(s, n)) + Shown(Current(s, n))
  }

  function NextState(state: State, c: Byte): State {
    if c == SLASH then AfterSlash
    else match state
      case AfterSlash => if c == DOT then Dot1 else InName
      case Dot1 => if c == DOT then Dot2 else InName
      case Dot2 => InName
      case InName => InName
  }

  function Added(state: State, c: Byte): seq<Byte> {
    if c == SLASH then []
    else match state
      case AfterSlash => if c == DOT then [] else [SLASH, c]
      case Dot1 => if c == DOT then [] else [SLASH, DOT, c]
      case Dot2 => [SLASH, DOT, DOT, c]
      case InName => [c]
  }

  lemma NameStep(cur: seq<Byte>, c: Byte)
    requires c != SLASH
    ensures Shown(cur + [c]) == Shown(cur) + Added(StateOf(cur), c) && StateOf(cur + [c]) == NextState(StateOf(cur), c)
  {
    match StateOf(cur) {
      case AfterSlash =>
        assert cur + [c] == [c];
      case Dot1 =>
        assert cur + [c] == [DOT, c] && [SLASH] + [DOT, c] == [SLASH, DOT, c];
      case Dot2 =>
        assert cur + [c] == [DOT, DOT, c] && [SLASH] + [DOT, DOT, c] == [SLASH, DOT, DOT, c];
      case InName =>
        var next := cur + [c];
        assert next[0] == cur[0] && [SLASH] + next == [SLASH] + cur + [c];
    }
  }

  /** One more character, other than a slash after two dots. */
  lemma OutputStep(s: seq<Byte>, n: nat)
    requires n < |s| && !(IsDots(Current(s, n)) && s[n] == SLASH)
    ensures Output(s, n + 1) == Output(s, n) + Added(StateOf(Current(s, n)), s[n])
    ensures StateOf(Current(s, n + 1)) == NextState(StateOf(Current(s, n)), s[n])
  {
    var cur, e := Current(s, n), Ended(s, n);
    if s[n] == SLASH {
      JoinedMore(e, cur);
      PieceShown(cur);
      assert Ended(s, n + 1) == e + [cur] && Current(s, n + 1) == [];
      NothingMore(JoinAll(e) + Shown(cur));
    } else {
      NameStep(cur, s[n]);
      assert Ended(s, n + 1) == e && Current(s, n + 1) == cur + [s[n]];
      Associate(JoinAll(e), Shown(cur), Added(StateOf(cur), s[n]));
    }
  }

  lemma PieceShown(c: seq<Byte>)
    requires !IsDots(c)
    ensures Piece(c) == Shown(c)
  {}

  lemma NothingMore(a: seq<Byte>)
    ensures a + [] == a
  {}

  lemma Associate(a: seq<Byte>, b: seq<Byte>, c: seq<Byte>)
    ensures a + (b + c) == a + b + c
  {}

  lemma EndOutput(s: seq<Byte>)
    requires NoParent(Ended(s, |s|)) && StateOf(Current(s, |s|)) != Dot2
    ensures Output(s, |s|) == Canonical(s) && NoParent(Components(s))
  {
    LastPiece(Ended(s, |s|), Current(s, |s|));
  }

  lemma LastPiece(ended: seq<seq<Byte>>, cur: seq<Byte>)
    requires NoParent(ended) && StateOf(cur) != Dot2
    ensures JoinAll(ended) + Shown(cur) == JoinAll(ended + [cur]) && NoParent(ended + [cur])
  {
    JoinedMore(ended, cur);
    NoParentAdd(ended, [cur]);
  }

  lemma {:induction false} EndedStays(s: seq<Byte>, i: nat, n: nat)
    requires i <= n <= |s|
    ensures NoParent(Ended(s, n)) ==> NoParent(Ended(s, i))
  {
    if i < n {
      EndedStays(s, i, n - 1);
      NoParentAdd(Ended(s, n - 1), [Current(s, n - 1)]);
    }
  }

  lemma ParentFound(s: seq<Byte>, n: nat)
    requires n < |s| && s[n] == SLASH && IsDots(Current(s, n))
    ensures !Acceptable(s)
  {
    assert IsDots(Ended(s, n + 1)[|Ended(s, n)|]);
    EndedStays(s, n + 1, |s|);
    NoParentAdd(Ended(s, |s|), [Current(s, |s|)]);
  }

  method Emit(output: array<Byte>, at: nat, bytes: seq<Byte>) returns (end: nat)
    requires at + |bytes| <= output.Length
    modifies output
    ensures end == at + |bytes| && output[..at] == old(output[..at]) && output[at..end] == bytes
  {
    for i := 0 to |bytes|
      invariant forall k :: 0 <= k < output.Length ==> output[k] == if at <= k < at + i then bytes[k - at] else old(output[k])
    {
      output[at + i] := bytes[i];
    }
    return at + |bytes|;
  }

  /** What one character does: the new state, and what is written for it; a slash after two dots is an error. */
  method Consume(state: State, c: Byte, output: array<Byte>, at: nat) returns (next: State, end: nat, ok: bool)
    requires at + |Added(state, c)| <= output.Length
    modifies output
    ensures ok <==> !(state == Dot2 && c == SLASH)
    ensures ok ==> next == NextState(state, c) && end == at + |Added(state, c)|
    ensures ok ==> output[..at] == old(output[..at]) && output[at..end] == Added(state, c)
  {
    next, end, ok := state, at, true;
    match state {
      case AfterSlash =>
        if c == SLASH {
        } else if c == DOT {
          next := Dot1;
        } else {
          end := Emit(output, at, [SLASH, c]);
          next := InName;
        }
      case Dot1 =>
        if c == SLASH {
          next := AfterSlash;
        } else if c == DOT {
          next := Dot2;
        } else {
          end := Emit(output, at, [SLASH, DOT, c]);
          next := InName;
        }
      case Dot2 =>
        if c == SLASH {
          ok := false;
        } else {
          end := Emit(output, at, [SLASH, DOT, DOT, c]);
          next := InName;
        }
      case InName =>
        if c == SLASH {
          next := AfterSlash;
        } else {
          end := Emit(output, at, [c]);
        }
    }
  }

  /** After n characters, nothing is wrong yet and everything for them has been written. */
  ghost predicate ReadSoFar(s: seq<Byte>, n: nat, state: State, m0: seq<Byte>, m: seq<Byte>, start: nat, at: nat)
    requires n <= |s|
  {
    && state == StateOf(Current(s, n)) && start <= at <= |m| == |m0| && m[start..at] == Output(s, n) && m[..start] == m0[..start]
    && ValidChars(s, n) && NoParent(Ended(s, n))
  }

  lemma Appended(m: seq<Byte>, m1: seq<Byte>, start: nat, at: nat, end: nat)
    requires start <= at <= end <= |m1| == |m| && m1[..at] == m[..at]
    ensures m1[start..end] == m[start..at] + m1[at..end] && m1[..start] == m[..start]
  {
    assert m1[start..at] == m1[..at][start..] && m[start..at] == m[..at][start..];
    assert m1[..start] == m1[..at][..start] && m[..start] == m[..at][..start];
  }

  lemma ReadOneMore(s: seq<Byte>, n: nat, state: State, m0: seq<Byte>, m: seq<Byte>, m1: seq<Byte>, start: nat, at: nat, end: nat)
    requires n < |s| && ReadSoFar(s, n, state, m0, m, start, at) && !(state == Dot2 && s[n] == SLASH) && PathChar(s[n])
    requires |m1| == |m| && end == at + |Added(state, s[n])| <= |m| && m1[..at] == m[..at] && m1[at..end] == Added(state, s[n])
    ensures ReadSoFar(s, n + 1, NextState(state, s[n]), m0, m1, start, end)
  {
    OutputStep(s, n);
    Appended(m, m1, start, at, end);
    NoParentAdd(Ended(s, n), [Current(s, n)]);
  }

  lemma RoomFor(s: seq<Byte>, n: nat, state: State)
    requires n < |s| && state == StateOf(Current(s, n))
    ensures |Output(s, n)| + |Added(state, s[n])| <= n + 2
  {
    OutputLength(s, n);
  }

  method SanitizeOne(state: State, c: Byte, output: array<Byte>, ghost start: nat, at: nat,
                     ghost s: seq<Byte>, ghost n: nat, ghost m0: seq<Byte>)
    returns (next: State, end: nat, ok: bool)
    requires n < |s| && s[n] == c && start + |s| + 1 < output.Length && ReadSoFar(s, n, state, m0, output[..], start, at)
    modifies output
    ensures ok ==> ReadSoFar(s, n + 1, next, m0, output[..], start, end)
    ensures !ok ==> !Acceptable(s)
  {
    if c != SLASH && !IsValidFilenameChar(c) {
      return state, at, false;
    }
    RoomFor(s, n, state);
    ghost var m := output[..];
    next, end, ok := Consume(state, c, output, at);
    if ok {
      ReadOneMore(s, n, state, m0, m, output[..], start, at, end);
    } else {
      ParentFound(s, n);
    }
  }

  /** The canonical form of s is in the output from `start` on, with a terminator. */
  ghost predicate Sanitized(s: seq<Byte>, m0: seq<Byte>, m: seq<Byte>, start: nat, length: int) {
    && length == |Canonical(s)| && |m| == |m0| && start + length < |m|
    && m[start..start + length] == Canonical(s) && m[start + length] == NUL && m[..start] == m0[..start]
  }

  /** At the end of the text, two dots are an error; otherwise the output gets its terminator. */
  method Terminate(state: State, output: array<Byte>, start: nat, at: nat, ghost s: seq<Byte>, ghost m0: seq<Byte>)
    returns (length: int)
    requires ReadSoFar(s, |s|, state, m0, output[..], start, at) && start + |s| + 1 < output.Length
    modifies output
    ensures if Acceptable(s) then Sanitized(s, m0, output[..], start, length) else length == -1
  {
    if state == Dot2 {
      assert IsDots(Components(s)[|Ended(s, |s|)|]);
      return -1;
    }
    EndOutput(s);
    CanonicalLength(s);
    ghost var m := output[..];
    output[at] := NUL;
    assert output[start..at] == m[start..at] && output[..start] == m[..start];
    return at - start;
  }

  /**
   * Write the canonical form of a path into the output, with a terminator. The
   * result is its length, or -1 if the path is not acceptable.
   */
  method Sanitize(output: array<Byte>, start: nat, input: seq<Byte>) returns (length: int)
    requires start + |input| + 2 <= output.Length
    modifies output
    ensures var s := TextOf(input);
            if Acceptable(s) then Sanitized(s, old(output[..]), output[..], start, length) else length == -1
  {
    ghost var end := TextEnd(input, 0);
    ghost var s := input[..end];
    ghost var m0 := output[..];
    var state, ok := AfterSlash, true;
    var i: nat, at: nat := 0, start;
    while i < |input| && input[i] != NUL
      invariant i <= end && ReadSoFar(s, i, state, m0, output[..], start, at)
      decreases |input| - i
    {
      state, at, ok := SanitizeOne(state, input[i], output, start, at, s, i, m0);
      if !ok {
        return -1;
      }
      i := i + 1;
    }
    length := Terminate(state, output, start, at, s, m0);
  }

  const PREFIX_SIZE := 155
  const NAME_SIZE := 100
  const FILENAME_SIZE := 260

  /** The path a header stands for: with a prefix, the prefix and the name are joined by a slash. */
  function FullPath(isUstar: bool, prefix: seq<Byte>, name: seq<Byte>): seq<Byte> {
    if isUstar then TextOf(prefix) + [SLASH] + TextOf(name) else TextOf(name)
  }

  ghost predicate HoldsString(m: seq<Byte>, s: seq<Byte>) {
    |s| < |m| && m[..|s|] == s && m[|s|] == NUL
  }

  lemma TwoParts(m: seq<Byte>, i: nat, j: nat)
    requires i <= j <= |m|
    ensures m[..j] == m[..i] + m[i..j]
  {}

  /**
   * Set the file name from a header. An empty canonical path is the root, which
   * only a directory can be; the buffer is large enough for any header.
   */
  method ParseFilename(filename: array<Byte>, isUstar: bool, prefix: seq<Byte>, name: seq<Byte>, isDirectory: bool) returns (ok: bool)
    requires filename.Length == FILENAME_SIZE && |prefix| == PREFIX_SIZE && |name| == NAME_SIZE
    modifies filename
    ensures var path := FullPath(isUstar, prefix, name);
            && (ok <==> Acceptable(path) && (Canonical(path) != [] || isDirectory))
            && (ok ==> HoldsString(filename[..], if Canonical(path) == [] then [SLASH] else Canonical(path)))
  {
    var output := 0;
    ghost var p, n := TextOf(prefix), TextOf(name);
    if isUstar {
      CanonicalParts(p, n);
      CanonicalLength(p);
      var length := Sanitize(filename, output, prefix);
      if length < 0 {
        return false;
      }
      output := output + length;
      assert filename[..][0..output] == filename[..output];
    }
    ghost var first := filename[..output];
    var length := Sanitize(filename, output, name);
    if length < 0 {
      return false;
    }
    TwoParts(filename[..], output, output + length);
    output := output + length;
    assert filename[..output] == first + Canonical(n);
    if output == 0 {
      if !isDirectory {
        return false;
      }
      NameRoot(filename);
    }
    return true;
  }

  /** The directory that the archive itself stands for. */
  method NameRoot(filename: array<Byte>)
    requires filename.Length == FILENAME_SIZE
    modifies filename
    ensures HoldsString(filename[..], [SLASH])
  {
    filename[0] := SLASH;
    filename[1] := NUL;
  }
}
