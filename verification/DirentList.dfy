/**
 * The list of directory entries the loader builds: blocks of entries, the last
 * slot of a full block being a link to the next block, and how user space walks it.
 */
module DirentList {

  type Addr = nat

  const NULL: Addr := 0
  const AREA_SIZE := 16384
  const ENTRY_SIZE := 48

  const TYPE_NEXT := -1
  const TYPE_END := -2

  /** An entry in memory; the name is the string its relative pointer leads to. */
  datatype Entry = Entry(kind: int, relValue: int, name: string)

  const CLEARED := Entry(0, 0, "")

  type Memory = map<Addr, Entry>

  function At(m: Memory, a: Addr): Entry {
    if a in m then m[a] else CLEARED
  }

  // ---- Reading the list

  function GetFirst(m: Memory, root: Addr): Addr {
    if root == NULL || At(m, root).kind == TYPE_END then NULL else root
  }

  function Skip(m: Memory, a: Addr): Addr {
    if At(m, a).kind == TYPE_NEXT && a + At(m, a).relValue >= 0 then a + At(m, a).relValue else a
  }

  function GetNext(m: Memory, prev: Addr): Addr {
    if prev == NULL || At(m, prev).kind == TYPE_END then NULL
    else
      var current := Skip(m, prev + ENTRY_SIZE);
      if At(m, current).kind == TYPE_END then NULL else current
  }

  /** The first entry with the given name, or NULL. */
  method FindByName(m: Memory, root: Addr, name: string, ghost entries: seq<Addr>) returns (found: Addr)
    requires Listed(m, root, entries)
    ensures found == NULL <==> forall i :: 0 <= i < |entries| ==> At(m, entries[i]).name != name
    ensures found != NULL ==>
              exists i :: 0 <= i < |entries| && entries[i] == found && At(m, found).name == name
                && forall j :: 0 <= j < i ==> At(m, entries[j]).name != name
  {
    found := GetFirst(m, root);
    ghost var i := 0;
    while found != NULL
      invariant i <= |entries| && found == Nth(entries, i)
      invariant forall j :: 0 <= j < i ==> At(m, entries[j]).name != name
      decreases |entries| - i
    {
      if At(m, found).name == name {
        return;
      }
      assert NextIs(m, entries, i);
      found := GetNext(m, found);
      i := i + 1;
    }
  }

  /** Walk the whole list and collect the names. */
  method Names(m: Memory, root: Addr, ghost entries: seq<Addr>) returns (names: seq<string>)
    requires Listed(m, root, entries)
    ensures names == NamesOf(m, entries)
  {
    names := [];
    var dirent := GetFirst(m, root);
    while dirent != NULL
      invariant |names| <= |entries| && dirent == Nth(entries, |names|)
      invariant forall j :: 0 <= j < |names| ==> names[j] == At(m, entries[j]).name
      decreases |entries| - |names|
    {
      assert NextIs(m, entries, |names|);
      names := names + [At(m, dirent).name];
      dirent := GetNext(m, dirent);
    }
  }

  ghost function NamesOf(m: Memory, entries: seq<Addr>): seq<string> {
    seq(|entries|, i requires 0 <= i < |entries| => At(m, entries[i]).name)
  }

  ghost function Nth(entries: seq<Addr>, i: nat): Addr {
    if i < |entries| then entries[i] else NULL
  }

  ghost predicate NextIs(m: Memory, entries: seq<Addr>, i: nat)
    requires i < |entries|
  {
    GetNext(m, entries[i]) == Nth(entries, i + 1)
  }

  /** Walking the list visits exactly these entries, in this order. */
  ghost predicate Listed(m: Memory, root: Addr, entries: seq<Addr>) {
    && NULL !in entries && GetFirst(m, root) == Nth(entries, 0)
    && forall i {:trigger NextIs(m, entries, i)} :: 0 <= i < |entries| ==> NextIs(m, entries, i)
  }

  // ---- Building it

  /** An entry that a walk stops at. */
  predicate Ordinary(kind: int) {
    kind != TYPE_NEXT && kind != TYPE_END
  }

  /** Slot a of a block is in use: it and the slot after it are in the block, and before the end if the block is the last one. */
  ghost predicate InBlock(a: Addr, block: Addr, last: Addr, end: Addr) {
    && block <= a && a + 2 * ENTRY_SIZE <= block + AREA_SIZE && (block == last ==> a + ENTRY_SIZE <= end)
  }

  ghost predicate Apart(a: Addr, b: Addr) {
    a + AREA_SIZE <= b || b + AREA_SIZE <= a
  }

  /** Entry i is an ordinary one in its block, and what follows it leads to the next one or to the terminator. */
  ghost predicate EntryAt(m: Memory, entries: seq<Addr>, block: Addr, last: Addr, end: Addr, i: nat)
    requires i < |entries|
  {
    && (block == last || Apart(block, last)) && InBlock(entries[i], block, last, end)
    && Ordinary(At(m, entries[i]).kind)
    && Skip(m, entries[i] + ENTRY_SIZE) == if i + 1 < |entries| then entries[i + 1] else end
  }

  /** Linking a new block: the terminator turns into a link to it. */
  lemma LinkKeeps(m: Memory, m1: Memory, entries: seq<Addr>, block: Addr, last: Addr, end: Addr, fresh_: Addr, i: nat)
    requires i < |entries| && EntryAt(m, entries, block, last, end, i) && At(m, end).kind == TYPE_END
    requires last <= end && end + ENTRY_SIZE <= last + AREA_SIZE && end == entries[|entries| - 1] + ENTRY_SIZE
    requires i + 1 < |entries| ==> entries[i + 1] != end
    requires Apart(block, fresh_) && Apart(last, fresh_)
    requires At(m1, end).kind == TYPE_NEXT && end + At(m1, end).relValue == fresh_
    requires forall a: Addr :: a != end && !(fresh_ <= a < fresh_ + AREA_SIZE) ==> At(m1, a) == At(m, a)
    ensures EntryAt(m1, entries, block, fresh_, fresh_, i) && At(m1, entries[i]) == At(m, entries[i])
  {
    assert Skip(m, end) == end;
  }

  class Archive {
    var m: Memory
    var addr: Addr             // the terminator
    var remaining: nat
    var root: Addr
    ghost var entries: seq<Addr>
    ghost var blocks: seq<Addr>
    ghost var owner: seq<Addr>   // the block of each entry

    ghost function Last(): Addr
      requires blocks != []
      reads this
    {
      blocks[|blocks| - 1]
    }

    ghost predicate EntryOk(i: nat)
      requires i < |entries| && |owner| == |entries| && blocks != []
      reads this
    {
      owner[i] in blocks && EntryAt(m, entries, owner[i], Last(), addr, i)
    }

    /** The blocks, the free part of the last one, and every entry are in order. */
    ghost predicate Linked()
      reads this
    {
      && blocks != [] && NULL !in blocks && |owner| == |entries|
      && Last() <= addr && addr + ENTRY_SIZE + remaining == Last() + AREA_SIZE
      && (forall a :: addr < a < Last() + AREA_SIZE ==> At(m, a) == CLEARED) && At(m, addr) == Entry(TYPE_END, 0, "")
      && root == (if entries == [] then addr else entries[0])
      && forall i {:trigger EntryOk(i)} :: 0 <= i < |entries| ==> EntryOk(i)
    }

    ghost predicate Valid()
      reads this
    {
      Linked() && (if entries == [] then remaining >= ENTRY_SIZE else addr == entries[|entries| - 1] + ENTRY_SIZE)
    }

    /** What user space sees of it. */
    lemma Walk()
      requires Linked()
      ensures Listed(m, root, entries)
    {
      assert entries != [] ==> EntryOk(0);
      forall i | 0 <= i < |entries| ensures NextIs(m, entries, i) {
        assert EntryOk(i);
        assert i + 1 < |entries| ==> EntryOk(i + 1);
      }
      forall i | 0 <= i < |entries| ensures entries[i] != NULL {
        assert EntryOk(i);
      }
    }

    /** A block without entries: its first slot is the terminator. */
    constructor (m0: Memory, block: Addr)
      requires block != NULL
      ensures Valid() && entries == [] && blocks == [block] && root == block
    {
      m := (map a | a in m0 && !(block <= a < block + AREA_SIZE) :: m0[a])[block := Entry(TYPE_END, 0, "")];
      addr, root, remaining := block, block, AREA_SIZE - ENTRY_SIZE;
      entries, owner, blocks := [], [], [block];
    }

    /** The terminator becomes an entry and the slot after it the terminator. */
    method AllocateDirent(kind: int) returns (current: Addr)
      requires Linked() && remaining >= ENTRY_SIZE && Ordinary(kind)
      modifies this
      ensures Valid() && entries == old(entries) + [current] && current == old(addr) && blocks == old(blocks)
      ensures At(m, current) == Entry(kind, 0, "")
      ensures forall a :: a !in {current, current + ENTRY_SIZE} ==> At(m, a) == old(At(m, a))
    {
      current := addr;
      m := m[current := At(m, current).(kind := kind)];
      var terminator := current + ENTRY_SIZE;
      assert old(At(m, terminator)) == CLEARED;
      m := m[terminator := At(m, terminator).(kind := TYPE_END)];
      addr := terminator;
      remaining := remaining - ENTRY_SIZE;
      entries, owner := entries + [current], owner + [Last()];
      forall a | addr < a < Last() + AREA_SIZE ensures At(m, a) == CLEARED {
        assert old(At(m, a)) == CLEARED;
      }
      forall i | 0 <= i < |entries| ensures EntryOk(i) {
        assert i < |old(entries)| ==> old(EntryOk(i));
      }
    }

    /** Set up a new block with a terminator in its first slot. */
    method AllocateDirentBlock(block: Addr)
      modifies this`m, this`addr, this`remaining
      ensures addr == block && remaining == AREA_SIZE - ENTRY_SIZE && At(m, block) == Entry(TYPE_END, 0, "")
      ensures forall a: Addr ::
                At(m, a) == if a == block then Entry(TYPE_END, 0, "") else if block < a < block + AREA_SIZE then CLEARED else old(At(m, a))
    {
      m := map a | a in m && !(block <= a < block + AREA_SIZE) :: m[a];
      m := m[block := At(m, block).(kind := TYPE_END)];
      addr := block;
      remaining := AREA_SIZE - ENTRY_SIZE;
    }

    /**
     * Append an entry. If the block is full, `block` is what the page allocator
     * gives for another one, or NULL, and the terminator becomes a link to it.
     */
    method Append(kind: int, block: Addr) returns (current: Addr)
      requires Valid() && Ordinary(kind) && (block != NULL ==> forall b <- blocks :: Apart(b, block))
      modifies this
      ensures Valid() && (current == NULL <==> old(remaining) < ENTRY_SIZE && block == NULL)
      ensures current == NULL ==> entries == old(entries) && m == old(m)
      ensures blocks == old(blocks) || blocks == old(blocks) + [block]
      ensures current != NULL ==>
                && entries == old(entries) + [current] && At(m, current) == Entry(kind, 0, "") && current !in old(entries)
                && forall i :: 0 <= i < |old(entries)| ==> At(m, entries[i]) == old(At(m, entries[i]))
    {
      if remaining >= ENTRY_SIZE {
        Used();
        current := AllocateDirent(kind);
        return;
      }
      if block == NULL {
        return NULL;
      }
      LinkBlock(block);
      Used();
      current := AllocateDirent(kind);
    }

    /** Entries are not where the next one will go. */
    lemma Used()
      requires Linked() && remaining >= ENTRY_SIZE
      ensures addr != NULL && forall i :: 0 <= i < |entries| ==> entries[i] != addr && entries[i] != addr + ENTRY_SIZE
    {
      forall i | 0 <= i < |entries| ensures entries[i] != addr && entries[i] != addr + ENTRY_SIZE {
        assert EntryOk(i);
      }
    }

    method LinkBlock(block: Addr)
      requires Valid() && remaining < ENTRY_SIZE && block != NULL && forall b <- blocks :: Apart(b, block)
      modifies this
      ensures Linked() && remaining >= ENTRY_SIZE && entries == old(entries) && blocks == old(blocks) + [block]
      ensures forall i :: 0 <= i < |entries| ==> At(m, entries[i]) == old(At(m, entries[i]))
    {
      var link := addr;
      assert Last() in blocks && Apart(Last(), block);
      assert link + ENTRY_SIZE <= block || block + AREA_SIZE <= link;
      AllocateDirentBlock(block);
      ghost var m1 := m;
      m := m[link := At(m, link).(kind := TYPE_NEXT, relValue := addr - link)];
      blocks := blocks + [block];
      forall a: Addr | block <= a < block + AREA_SIZE ensures At(m, a) == At(m1, a) {}
      forall i | 0 <= i < |entries| ensures EntryOk(i) && At(m, entries[i]) == old(At(m, entries[i])) {
        assert old(EntryOk(i)) && (i + 1 < |entries| ==> old(EntryOk(i + 1)));
        LinkKeeps(old(m), m, entries, owner[i], old(Last()), link, block, i);
      }
    }

    /** The loader fills in an entry it has appended. */
    method Fill(entry: Addr, name: string, relValue: int)
      requires Valid() && entry in entries
      modifies this`m
      ensures Valid() && At(m, entry) == old(At(m, entry)).(name := name, relValue := relValue)
      ensures forall a :: a != entry ==> At(m, a) == old(At(m, a))
    {
      ghost var i :| 0 <= i < |entries| && entries[i] == entry;
      assert EntryOk(i);
      m := m[entry := At(m, entry).(name := name, relValue := relValue)];
      forall a | addr <= a < Last() + AREA_SIZE ensures At(m, a) == old(At(m, a)) {}
      forall j | 0 <= j < |entries| ensures EntryOk(j) {
        assert old(EntryOk(j));
      }
    }

    /** Append an entry and fill it in: the list of names grows by one at its end. */
    method Add(kind: int, name: string, relValue: int, block: Addr) returns (ok: bool)
      requires Valid() && Ordinary(kind) && (block != NULL ==> forall b <- blocks :: Apart(b, block))
      modifies this
      ensures Valid() && (ok <==> old(remaining) >= ENTRY_SIZE || block != NULL)
      ensures NamesOf(m, entries) == old(NamesOf(m, entries)) + if ok then [name] else []
      ensures blocks == old(blocks) || blocks == old(blocks) + [block]
    {
      var current := Append(kind, block);
      if current == NULL {
        return false;
      }
      Fill(current, name, relValue);
      assert forall i :: 0 <= i < |old(entries)| ==> old(entries)[i] != current && entries[i] == old(entries)[i];
      return true;
    }
  }

  /** Build a list and look a name up in it: the first entry of that name is found, if there is one. */
  method BuildAndFind(names: seq<string>, blocks: seq<Addr>, wanted: string) returns (found: bool)
    requires blocks != [] && NULL !in blocks && |blocks| > |names|
    requires forall i, j :: 0 <= i < j < |blocks| ==> Apart(blocks[i], blocks[j])
    ensures found <==> wanted in names
  {
    var archive := new Archive(map[], blocks[0]);
    for i := 0 to |names|
      invariant archive.Valid() && fresh(archive) && NamesOf(archive.m, archive.entries) == names[..i]
      invariant forall b <- archive.blocks :: exists j :: 0 <= j <= i && blocks[j] == b
    {
      assert forall b <- archive.blocks :: Apart(b, blocks[i + 1]);
      var ok := archive.Add(1, names[i], 0, blocks[i + 1]);
    }
    archive.Walk();
    var entry := FindByName(archive.m, archive.root, wanted, archive.entries);
    found := entry != NULL;
    ghost var all := NamesOf(archive.m, archive.entries);
    assert all == names;
    assert forall i :: 0 <= i < |all| ==> all[i] == At(archive.m, archive.entries[i]).name;
  }
}
