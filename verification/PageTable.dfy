/** The three-level radix tree that the mode tests build with a bump allocator, and the walk of it. */
module PageTable {
  import opened Arith
  import opened Wrappers

  /** Memory as pages of 512 doublewords, by page address; the doublewords as the MMU reads them. */
  type Memory = map<nat, seq<nat>>

  const PGDIR := 0x12000
  const FIRST_FREE := 0x13000
  const PAGE := 0x1000

  function Word(mem: Memory, base: nat, i: nat): nat { if base in mem && i < |mem[base]| then mem[base][i] else 0 }

  function Zeroed(mem: Memory, base: nat): Memory { mem[base := seq(512, _ => 0)] }

  function Stored(mem: Memory, base: nat, i: nat, v: nat): Memory
    requires base in mem && i < |mem[base]|
  {
    var page: seq<nat> := mem[base][i := v];
    mem[base := page]
  }

  // ---------------------------------------------------------------- entries

  /** Valid, not a leaf, address of the next table, 512 entries in it. */
  function DirEntry(addr: nat): nat { Or(Or(0x8000_0000_0000_0000, addr), 9) }

  /** Valid leaf with the page address and the permissions. */
  function LeafEntry(pa: nat, perm: nat): nat { Or(Or(0xc000_0000_0000_0000, pa % 0x100_0000_0000_0000 / PAGE * PAGE), perm) }

  /** The address field, as read_pd masks it. */
  function Field(e: nat): nat { e % 0x100_0000_0000_0000 / 0x100 * 0x100 }

  predicate IsValid(e: nat) { e / 0x8000_0000_0000_0000 % 2 == 1 }
  predicate IsLeaf(e: nat) { e / 0x4000_0000_0000_0000 % 2 == 1 }
  predicate IsDir(e: nat) { IsValid(e) && !IsLeaf(e) && e % 32 == 9 }

  lemma DirEntryFields(addr: nat)
    requires addr % PAGE == 0 && addr < 0x100_0000_0000_0000
    ensures IsDir(DirEntry(addr)) && Field(DirEntry(addr)) == addr
  {
    hide DirEntry;
    DirEntrySum(addr);
    var e, p := DirEntry(addr), addr / PAGE;
    ModUnique(0x8000_0000_0000_0000, 1, addr + 9, e);
    ModUnique(0x4000_0000_0000_0000, 2, addr + 9, e);
    ModUnique(0x100_0000_0000_0000, 0x80, addr + 9, e);
    ModUnique(0x100, 16 * p, 9, addr + 9);
    ModUnique(32, 0x400_0000_0000_0000 + 128 * p, 9, e);
  }

  lemma DirEntrySum(addr: nat)
    requires addr % PAGE == 0 && addr < 0x100_0000_0000_0000
    ensures DirEntry(addr) == 0x8000_0000_0000_0000 + addr + 9
  {
    hide Or, Pow2;
    Powers();
    OrApart(0x80, addr, 56);
    OrApart((0x8000_0000_0000_0000 + addr) / PAGE, 9, 12);
  }

  lemma LeafEntryFields(pa: nat, perm: nat)
    requires perm < 0x1_0000_0000_0000_0000
    ensures IsValid(LeafEntry(pa, perm)) && IsLeaf(LeafEntry(pa, perm)) && LeafEntry(pa, perm) != 0
    ensures perm < PAGE ==>
      LeafEntry(pa, perm) == 0xc000_0000_0000_0000 + pa % 0x100_0000_0000_0000 / PAGE * PAGE + perm
  {
    hide Or, Pow2;
    Powers();
    var a := pa % 0x100_0000_0000_0000 / PAGE * PAGE;
    OrBounds(0xc000_0000_0000_0000, a, 64);
    OrBounds(Or(0xc000_0000_0000_0000, a), perm, 64);
    OrApart(0xc0, a, 56);
    if perm < PAGE { OrApart((0xc000_0000_0000_0000 + a) / PAGE, perm, 12); }
  }

  // ---------------------------------------------------------------- the walk

  /** The three nine-bit indices of a page. */
  datatype Index = Index(h: nat, i: nat, j: nat)

  function IndexOf(ea: nat): Index {
    var epn := ea / PAGE;
    Index(epn / 0x4_0000 % 0x200, epn / 0x200 % 0x200, epn % 0x200)
  }

  /** The indices are bits 38 to 30, 29 to 21 and 20 to 12 of the address. */
  lemma IndexBits(ea: nat)
    ensures IndexOf(ea) == Index(ea / 0x4000_0000 % 512, ea / 0x20_0000 % 512, ea / 0x1000 % 512)
  {
    var n, low := ea / 0x1000, ea % 0x1000;
    ModUnique(0x20_0000, n / 0x200, n % 0x200 * 0x1000 + low, ea);
    ModUnique(0x4000_0000, n / 0x4_0000, n % 0x4_0000 * 0x1000 + low, ea);
  }

  /** Below 2^39 the indices tell the pages apart. */
  lemma IndexIsPage(ea: nat, ea': nat)
    requires ea < 0x80_0000_0000 && ea' < 0x80_0000_0000
    ensures IndexOf(ea) == IndexOf(ea') <==> ea / PAGE == ea' / PAGE
  {
    hide IndexOf;
    IndexSum(ea);
    IndexSum(ea');
    IndexByPage(ea, ea');
  }

  lemma IndexSum(ea: nat)
    requires ea < 0x80_0000_0000
    ensures var x := IndexOf(ea); ea / PAGE == 0x4_0000 * x.h + 0x200 * x.i + x.j
  {
    var n := ea / PAGE;
    var a, j := n / 0x200, n % 0x200;
    var h, i := a / 0x200, a % 0x200;
    ModUnique(0x4_0000, h, 0x200 * i + j, n);
    ModUnique(0x200, 0, h, h);
  }

  lemma IndexByPage(ea: nat, ea': nat)
    ensures ea / PAGE == ea' / PAGE ==> IndexOf(ea) == IndexOf(ea')
  {}

  /** The MMU's walk: two directory levels and a leaf level. */
  function Walk(mem: Memory, x: Index): Option<nat> {
    var e1 := Word(mem, PGDIR, x.h);
    if !IsDir(e1) then None
    else
      var e2 := Word(mem, Field(e1), x.i);
      if !IsDir(e2) then None
      else
        var e3 := Word(mem, Field(e2), x.j);
        if IsValid(e3) && IsLeaf(e3) then Some(e3) else None
  }

  // ---------------------------------------------------------------- the tree

  /** Second-level tables, leaf tables and leaf entries by their indices. */
  datatype Tree = Tree(pmds: map<nat, nat>, ptes: map<(nat, nat), nat>, leaves: map<Index, nat>)

  predicate TableAddr(a: nat, free: nat) { FIRST_FREE <= a && a + PAGE <= free && a % PAGE == 0 }

  ghost predicate Placed<K>(m: map<K, nat>, free: nat) {
    && (forall k <- m :: TableAddr(m[k], free))
    && (forall k <- m, k' <- m :: m[k] == m[k'] ==> k == k')
  }

  /** The tables lie apart from one another, below the allocation pointer, and fill the space up to it. */
  ghost predicate Apart(t: Tree, free: nat) {
    && Placed(t.pmds, free) && Placed(t.ptes, free)
    && (forall h <- t.pmds, k <- t.ptes :: t.pmds[h] != t.ptes[k])
    && free == FIRST_FREE + PAGE * (|t.pmds| + |t.ptes|)
  }

  ghost predicate Linked(t: Tree) {
    && (forall h <- t.pmds :: h < 512)
    && (forall k <- t.ptes :: k.0 in t.pmds && k.1 < 512)
    && (forall x <- t.leaves :: (x.h, x.i) in t.ptes && x.j < 512 && IsValid(t.leaves[x]) && IsLeaf(t.leaves[x]))
  }

  ghost predicate IsTable(mem: Memory, base: nat) { base in mem && |mem[base]| == 512 }

  function Entry<K>(m: map<K, nat>, k: K): nat { if k in m then DirEntry(m[k]) else 0 }
  function LeafAt(m: map<Index, nat>, x: Index): nat { if x in m then m[x] else 0 }

  ghost predicate PgdOk(mem: Memory, t: Tree) {
    IsTable(mem, PGDIR) && forall h | 0 <= h < 512 :: mem[PGDIR][h] == Entry(t.pmds, h)
  }

  ghost predicate PmdOk(mem: Memory, t: Tree, h: nat)
    requires h in t.pmds
  {
    var base := t.pmds[h];
    IsTable(mem, base) && forall i | 0 <= i < 512 :: mem[base][i] == Entry(t.ptes, (h, i))
  }

  ghost predicate PteOk(mem: Memory, t: Tree, k: (nat, nat))
    requires k in t.ptes
  {
    var base := t.ptes[k];
    IsTable(mem, base) && forall j | 0 <= j < 512 :: mem[base][j] == LeafAt(t.leaves, Index(k.0, k.1, j))
  }

  ghost predicate Held(mem: Memory, t: Tree) {
    PgdOk(mem, t) && (forall h <- t.pmds :: PmdOk(mem, t, h)) && (forall k <- t.ptes :: PteOk(mem, t, k))
  }

  ghost predicate TreeOk(mem: Memory, free: nat, t: Tree) { Apart(t, free) && Linked(t) && Held(mem, t) }

  lemma {:induction false} FewKeys(s: set<nat>, n: nat)
    requires forall k <- s :: k < n
    ensures |s| <= n
  {
    if n == 0 {
      assert s == {};
    } else {
      FewKeys(s - {n - 1}, n - 1);
      assert s <= (s - {n - 1}) + {n - 1};
    }
  }

  lemma {:induction false} FewPairs(s: set<(nat, nat)>, n: nat)
    requires forall k <- s :: k.1 < 512 && 512 * k.0 + k.1 < n
    ensures |s| <= n
  {
    if n == 0 {
      assert s == {};
    } else {
      var last := ((n - 1) / 512, (n - 1) % 512);
      FewPairs(s - {last}, n - 1);
      assert s <= (s - {last}) + {last};
    }
  }

  /** There are never so many tables that an address would not fit its field. */
  lemma RoomEnough(t: Tree, free: nat)
    requires Apart(t, free) && Linked(t)
    ensures FIRST_FREE <= free <= 0x4030_0000 && free % PAGE == 0
  {
    hide IsValid, IsLeaf, Placed;
    FewKeys(t.pmds.Keys, 0x200);
    FewPairs(t.ptes.Keys, 0x4_0000);
    assert |t.pmds| == |t.pmds.Keys| && |t.ptes| == |t.ptes.Keys|;
  }

  /** A directory entry of the tree leads to its table; a missing one is zero. */
  lemma EntryLeads<K>(m: map<K, nat>, k: K, free: nat)
    requires Placed(m, free) && free <= 0x100_0000_0000_0000
    ensures IsDir(Entry(m, k)) <==> k in m
    ensures k in m ==> Entry(m, k) != 0 && Field(Entry(m, k)) == m[k]
  {
    if k in m { DirEntryFields(m[k]); }
  }

  lemma PgdLeads(mem: Memory, free: nat, t: Tree, h: nat)
    requires TreeOk(mem, free, t) && h < 512
    ensures Word(mem, PGDIR, h) == 0 <==> h !in t.pmds
    ensures h in t.pmds ==> Field(Word(mem, PGDIR, h)) == t.pmds[h]
    ensures IsDir(Word(mem, PGDIR, h)) <==> h in t.pmds
  {
    RoomEnough(t, free);
    EntryLeads(t.pmds, h, free);
  }

  lemma PmdLeads(mem: Memory, free: nat, t: Tree, k: (nat, nat))
    requires TreeOk(mem, free, t) && k.0 in t.pmds && k.1 < 512
    ensures Word(mem, t.pmds[k.0], k.1) == 0 <==> k !in t.ptes
    ensures k in t.ptes ==> Field(Word(mem, t.pmds[k.0], k.1)) == t.ptes[k]
    ensures IsDir(Word(mem, t.pmds[k.0], k.1)) <==> k in t.ptes
  {
    RoomEnough(t, free);
    EntryLeads(t.ptes, k, free);
    assert PmdOk(mem, t, k.0);
  }

  lemma PteLeads(mem: Memory, free: nat, t: Tree, x: Index)
    requires TreeOk(mem, free, t) && (x.h, x.i) in t.ptes && x.j < 512
    ensures Word(mem, t.ptes[(x.h, x.i)], x.j) == LeafAt(t.leaves, x)
    ensures Word(mem, t.ptes[(x.h, x.i)], x.j) == 0 <==> x !in t.leaves
  {
    assert PteOk(mem, t, (x.h, x.i));
  }

  /** The walk finds exactly the leaf entries of the tree. */
  lemma WalkIsLookup(mem: Memory, free: nat, t: Tree, x: Index)
    requires TreeOk(mem, free, t) && x.h < 512 && x.i < 512 && x.j < 512
    ensures Walk(mem, x) == if x in t.leaves then Some(t.leaves[x]) else None
  {
    hide Field, IsDir, Word, Held, Apart;
    PgdLeads(mem, free, t, x.h);
    if x.h in t.pmds {
      PmdLeads(mem, free, t, (x.h, x.i));
      if (x.h, x.i) in t.ptes { PteLeads(mem, free, t, x); }
    }
  }

  // ---------------------------------------------------------------- changes

  /** Tables that a store does not touch stay as they are. */
  lemma PmdKept(mem: Memory, mem': Memory, t: Tree, t': Tree, h: nat)
    requires h in t.pmds && h in t'.pmds && t'.pmds[h] == t.pmds[h] && PmdOk(mem, t, h)
    requires t.pmds[h] in mem' && mem'[t.pmds[h]] == mem[t.pmds[h]]
    requires forall i: nat :: Entry(t'.ptes, (h, i)) == Entry(t.ptes, (h, i))
    ensures PmdOk(mem', t', h)
  {}

  lemma PteKept(mem: Memory, mem': Memory, t: Tree, t': Tree, k: (nat, nat))
    requires k in t.ptes && k in t'.ptes && t'.ptes[k] == t.ptes[k] && PteOk(mem, t, k)
    requires t.ptes[k] in mem' && mem'[t.ptes[k]] == mem[t.ptes[k]]
    requires forall j: nat :: LeafAt(t'.leaves, Index(k.0, k.1, j)) == LeafAt(t.leaves, Index(k.0, k.1, j))
    ensures PteOk(mem', t', k)
  {}

  lemma PlacedMore<K>(m: map<K, nat>, free: nat, k: K)
    requires Placed(m, free) && free % PAGE == 0 && free >= FIRST_FREE && k !in m
    ensures Placed(m, free + PAGE) && Placed(m[k := free], free + PAGE) && |m[k := free]| == |m| + 1
  {
    var m' := m[k := free];
    forall a <- m', b <- m' | m'[a] == m'[b] ensures a == b {
      if a != k { assert TableAddr(m[a], free); }
      if b != k { assert TableAddr(m[b], free); }
    }
  }

  lemma PlacedBelow<K>(m: map<K, nat>, free: nat)
    requires Placed(m, free)
    ensures Placed(m, free + PAGE) && forall k <- m :: m[k] != free
  {
    forall k <- m ensures TableAddr(m[k], free + PAGE) && m[k] != free { assert TableAddr(m[k], free); }
  }

  lemma ApartPmd(t: Tree, free: nat, h: nat)
    requires Apart(t, free) && Linked(t) && h < 512 && h !in t.pmds
    ensures Apart(t.(pmds := t.pmds[h := free]), free + PAGE) && Linked(t.(pmds := t.pmds[h := free]))
  {
    hide IsValid, IsLeaf, Placed;
    RoomEnough(t, free);
    PlacedMore(t.pmds, free, h);
    PlacedBelow(t.ptes, free);
  }

  lemma ApartPte(t: Tree, free: nat, k: (nat, nat))
    requires Apart(t, free) && Linked(t) && k.0 in t.pmds && k.1 < 512 && k !in t.ptes
    ensures Apart(t.(ptes := t.ptes[k := free]), free + PAGE) && Linked(t.(ptes := t.ptes[k := free]))
  {
    hide IsValid, IsLeaf, Placed;
    RoomEnough(t, free);
    PlacedMore(t.ptes, free, k);
    PlacedBelow(t.pmds, free);
  }

  /** What the allocation pointer points at is no table yet. */
  lemma FreeIsFresh(t: Tree, free: nat)
    requires Apart(t, free) && Linked(t)
    ensures free != PGDIR && free !in t.pmds.Values && free !in t.ptes.Values
    ensures PGDIR !in t.pmds.Values && PGDIR !in t.ptes.Values
  {
    RoomEnough(t, free);
    forall h <- t.pmds ensures free != t.pmds[h] && PGDIR != t.pmds[h] { assert TableAddr(t.pmds[h], free); }
    forall k <- t.ptes ensures free != t.ptes[k] && PGDIR != t.ptes[k] { assert TableAddr(t.ptes[k], free); }
  }

  lemma HeldPmd(mem: Memory, free: nat, t: Tree, h: nat)
    requires TreeOk(mem, free, t) && h < 512 && h !in t.pmds
    ensures IsTable(Zeroed(mem, free), PGDIR)
    ensures Held(Stored(Zeroed(mem, free), PGDIR, h, DirEntry(free)), t.(pmds := t.pmds[h := free]))
  {
    hide DirEntry, IsValid, IsLeaf, Apart, TableAddr;
    FreeIsFresh(t, free);
    var mem', t' := Stored(Zeroed(mem, free), PGDIR, h, DirEntry(free)), t.(pmds := t.pmds[h := free]);
    forall g <- t'.pmds ensures PmdOk(mem', t', g) {
      if g != h { assert PmdOk(mem, t, g); assert t.pmds[g] in t.pmds.Values; PmdKept(mem, mem', t, t', g); }
    }
    forall k <- t'.ptes ensures PteOk(mem', t', k) {
      assert PteOk(mem, t, k) && t.ptes[k] in t.ptes.Values;
      PteKept(mem, mem', t, t', k);
    }
  }

  lemma PmdGrows(mem: Memory, mem': Memory, t: Tree, k: (nat, nat), free: nat)
    requires k.0 in t.pmds && k.1 < 512 && PmdOk(mem, t, k.0) && t.pmds[k.0] in mem'
    requires mem'[t.pmds[k.0]] == mem[t.pmds[k.0]][k.1 := DirEntry(free)]
    ensures PmdOk(mem', t.(ptes := t.ptes[k := free]), k.0)
  {
    hide DirEntry;
  }

  /** A second-level table is no other table, and the next free page is none. */
  lemma PmdIsApart(mem: Memory, free: nat, t: Tree, h: nat)
    requires TreeOk(mem, free, t) && h in t.pmds
    ensures PmdOk(mem, t, h) && t.pmds[h] != PGDIR && PGDIR != free
    ensures forall g <- t.pmds :: t.pmds[g] != free && (g != h ==> t.pmds[g] != t.pmds[h])
    ensures forall k <- t.ptes :: t.ptes[k] != free && t.ptes[k] != t.pmds[h]
  {
    FreeIsFresh(t, free);
    assert t.pmds[h] in t.pmds.Values;
    forall g <- t.pmds ensures t.pmds[g] != free { assert t.pmds[g] in t.pmds.Values; }
    forall k <- t.ptes ensures t.ptes[k] != free { assert t.ptes[k] in t.ptes.Values; }
  }

  lemma NoLeaves(t: Tree, k: (nat, nat))
    requires Linked(t) && k !in t.ptes
    ensures forall j: nat :: LeafAt(t.leaves, Index(k.0, k.1, j)) == 0
  {}

  lemma HeldPte(mem: Memory, free: nat, t: Tree, k: (nat, nat))
    requires TreeOk(mem, free, t) && k.0 in t.pmds && k.1 < 512 && k !in t.ptes
    ensures IsTable(Zeroed(mem, free), t.pmds[k.0])
    ensures Held(Stored(Zeroed(mem, free), t.pmds[k.0], k.1, DirEntry(free)), t.(ptes := t.ptes[k := free]))
  {
    hide DirEntry, Apart, Linked;
    PmdIsApart(mem, free, t, k.0);
    var mem', t' := Stored(Zeroed(mem, free), t.pmds[k.0], k.1, DirEntry(free)), t.(ptes := t.ptes[k := free]);
    PmdGrows(mem, mem', t, k, free);
    NoLeaves(t, k);
    forall g <- t'.pmds ensures PmdOk(mem', t', g) {
      assert PmdOk(mem, t, g);
      if g != k.0 { PmdKept(mem, mem', t, t', g); }
    }
    forall c <- t'.ptes ensures PteOk(mem', t', c) {
      if c != k { assert PteOk(mem, t, c); PteKept(mem, mem', t, t', c); }
    }
  }

  function WithLeaf(t: Tree, x: Index, v: nat): Tree {
    t.(leaves := if v == 0 then t.leaves - {x} else t.leaves[x := v])
  }

  lemma PteChanges(mem: Memory, mem': Memory, t: Tree, x: Index, v: nat)
    requires (x.h, x.i) in t.ptes && x.j < 512 && PteOk(mem, t, (x.h, x.i)) && t.ptes[(x.h, x.i)] in mem'
    requires mem'[t.ptes[(x.h, x.i)]] == mem[t.ptes[(x.h, x.i)]][x.j := v]
    ensures PteOk(mem', WithLeaf(t, x, v), (x.h, x.i))
  {}

  lemma HeldLeaf(mem: Memory, free: nat, t: Tree, x: Index, v: nat)
    requires TreeOk(mem, free, t) && (x.h, x.i) in t.ptes && x.j < 512
    ensures IsTable(mem, t.ptes[(x.h, x.i)]) && t.ptes[(x.h, x.i)] != PGDIR
    ensures Held(Stored(mem, t.ptes[(x.h, x.i)], x.j, v), WithLeaf(t, x, v))
  {
    hide DirEntry, Apart, Linked;
    var k := (x.h, x.i);
    LeafIsApart(mem, free, t, k);
    var mem', t' := Stored(mem, t.ptes[k], x.j, v), WithLeaf(t, x, v);
    forall g <- t'.pmds ensures PmdOk(mem', t', g) {
      assert PmdOk(mem, t, g);
      PmdKept(mem, mem', t, t', g);
    }
    PteChanges(mem, mem', t, x, v);
    forall c <- t'.ptes ensures PteOk(mem', t', c) {
      assert PteOk(mem, t, c);
      if c != k { PteKept(mem, mem', t, t', c); }
    }
  }

  /** A leaf table is no other table. */
  lemma LeafIsApart(mem: Memory, free: nat, t: Tree, k: (nat, nat))
    requires TreeOk(mem, free, t) && k in t.ptes
    ensures PteOk(mem, t, k) && t.ptes[k] != PGDIR
    ensures (forall h <- t.pmds :: t.pmds[h] != t.ptes[k]) && (forall c <- t.ptes | c != k :: t.ptes[c] != t.ptes[k])
  {
    FreeIsFresh(t, free);
    assert t.ptes[k] in t.ptes.Values;
  }

  lemma LinkedLeaf(t: Tree, free: nat, x: Index, v: nat)
    requires Apart(t, free) && Linked(t) && (x.h, x.i) in t.ptes && x.j < 512 && (v == 0 || (IsValid(v) && IsLeaf(v)))
    ensures Apart(WithLeaf(t, x, v), free) && Linked(WithLeaf(t, x, v))
  {
    hide IsValid, IsLeaf, TableAddr;
  }

  // ---------------------------------------------------------------- map and unmap

  datatype Call = MapCall(ea: nat, pa: nat, perm: nat) | UnmapCall(ea: nat)

  /** The last call for a page decides its translation. */
  function LastMapping(calls: seq<Call>, x: Index): Option<nat> {
    if calls == [] then None
    else
      var c := calls[|calls| - 1];
      if IndexOf(c.ea) != x then LastMapping(calls[..|calls| - 1], x)
      else if c.MapCall? then Some(LeafEntry(c.pa, c.perm))
      else None
  }

  class PageTables {
    var mem: Memory
    var freePtr: nat
    ghost var tree: Tree

    ghost predicate Valid() reads this { TreeOk(mem, freePtr, tree) }

    /** An empty tree: only the page directory, cleared; the rest of memory holds anything. */
    constructor (start: Memory)
      ensures Valid() && tree.leaves == map[]
    {
      mem := Zeroed(start, PGDIR);
      freePtr := FIRST_FREE;
      tree := Tree(map[], map[], map[]);
    }

    /** The second-level table for a top index, allocated on first use. */
    method Pmd(h: nat) returns (base: nat)
      requires Valid() && h < 512
      modifies this
      ensures Valid() && h in tree.pmds && base == tree.pmds[h]
      ensures tree.ptes == old(tree.ptes) && tree.leaves == old(tree.leaves)
    {
      hide Apart, Linked, Held, DirEntry, Field, Word;
      PgdLeads(mem, freePtr, tree, h);
      if Word(mem, PGDIR, h) == 0 {
        HeldPmd(mem, freePtr, tree, h);
        ApartPmd(tree, freePtr, h);
        mem := Zeroed(mem, freePtr);
        mem := Stored(mem, PGDIR, h, DirEntry(freePtr));
        tree := tree.(pmds := tree.pmds[h := freePtr]);
        freePtr := freePtr + PAGE;
      }
      PgdLeads(mem, freePtr, tree, h);
      base := Field(Word(mem, PGDIR, h));
    }

    /** The leaf table for an entry of a second-level table, allocated on first use. */
    method Pte(pmd: nat, ghost h: nat, i: nat) returns (base: nat)
      requires Valid() && h in tree.pmds && pmd == tree.pmds[h] && i < 512
      modifies this
      ensures Valid() && (h, i) in tree.ptes && base == tree.ptes[(h, i)]
      ensures tree.pmds == old(tree.pmds) && tree.leaves == old(tree.leaves)
    {
      hide Apart, Linked, Held, DirEntry, Field, Word;
      PmdLeads(mem, freePtr, tree, (h, i));
      if Word(mem, pmd, i) == 0 {
        HeldPte(mem, freePtr, tree, (h, i));
        ApartPte(tree, freePtr, (h, i));
        mem := Zeroed(mem, freePtr);
        mem := Stored(mem, pmd, i, DirEntry(freePtr));
        tree := tree.(ptes := tree.ptes[(h, i) := freePtr]);
        freePtr := freePtr + PAGE;
      }
      PmdLeads(mem, freePtr, tree, (h, i));
      base := Field(Word(mem, pmd, i));
    }

    /** Store a leaf entry, or clear it. */
    method Leaf(pte: nat, ghost x: Index, j: nat, v: nat)
      requires Valid() && (x.h, x.i) in tree.ptes && pte == tree.ptes[(x.h, x.i)] && j == x.j < 512
      requires v == 0 || (IsValid(v) && IsLeaf(v))
      modifies this
      ensures Valid() && tree == WithLeaf(old(tree), x, v) && freePtr == old(freePtr)
    {
      hide Apart, Linked, Held, IsValid, IsLeaf;
      HeldLeaf(mem, freePtr, tree, x, v);
      LinkedLeaf(tree, freePtr, x, v);
      mem := Stored(mem, pte, j, v);
      tree := WithLeaf(tree, x, v);
    }

    /** Map a page.  Every other page keeps its mapping, and a translation is invalidated exactly when
        the page had one. */
    method Map(ea: nat, pa: nat, perm: nat) returns (flushed: bool)
      requires Valid() && perm < 0x1_0000_0000_0000_0000
      modifies this
      ensures Valid() && tree.leaves == old(tree.leaves)[IndexOf(ea) := LeafEntry(pa, perm)]
      ensures flushed <==> IndexOf(ea) in old(tree.leaves)
      ensures forall x: Index | x.h < 512 && x.i < 512 && x.j < 512 ::
        Walk(mem, x) == if x == IndexOf(ea) then Some(LeafEntry(pa, perm)) else old(Walk(mem, x))
    {
      hide TreeOk, LeafEntry, Walk, IsValid, IsLeaf, Word, Field, IsDir;
      var x := IndexOf(ea);
      Walks();
      LeafEntryFields(pa, perm);
      var pmd := Pmd(x.h);
      var pte := Pte(pmd, x.h, x.i);
      PteLeads(mem, freePtr, tree, x);
      flushed := Word(mem, pte, x.j) != 0;
      if flushed { Leaf(pte, x, x.j, 0); }
      Leaf(pte, x, x.j, LeafEntry(pa, perm));
      Walks();
    }

    /** Unmap a page: it has no mapping afterwards, and every other page keeps its own.  A translation is
        invalidated exactly when the page has a leaf table, mapped or not. */
    method Unmap(ea: nat) returns (flushed: bool)
      requires Valid()
      modifies this
      ensures Valid() && tree.leaves == old(tree.leaves) - {IndexOf(ea)}
      ensures flushed <==> (IndexOf(ea).h, IndexOf(ea).i) in old(tree.ptes)
      ensures IndexOf(ea) in old(tree.leaves) ==> flushed
      ensures forall x: Index | x.h < 512 && x.i < 512 && x.j < 512 ::
        Walk(mem, x) == if x == IndexOf(ea) then None else old(Walk(mem, x))
    {
      hide TreeOk, Walk, IsValid, IsLeaf, Word, Field, IsDir;
      var x := IndexOf(ea);
      Walks();
      Unlinked(x);
      PgdLeads(mem, freePtr, tree, x.h);
      if Word(mem, PGDIR, x.h) == 0 { return false; }
      var pmd := Field(Word(mem, PGDIR, x.h));
      PmdLeads(mem, freePtr, tree, (x.h, x.i));
      if Word(mem, pmd, x.i) == 0 { return false; }
      var pte := Field(Word(mem, pmd, x.i));
      Leaf(pte, x, x.j, 0);
      Walks();
      return true;
    }

    /** After any calls on an empty tree, the walk of each page finds the last mapping made and not
        undone, and the tables are apart and below the allocation pointer. */
    method Perform(calls: seq<Call>)
      requires Valid() && tree.leaves == map[]
      requires forall c <- calls | c.MapCall? :: c.perm < 0x1_0000_0000_0000_0000
      modifies this
      ensures Valid() && Apart(tree, freePtr)
      ensures forall x: Index | x.h < 512 && x.i < 512 && x.j < 512 :: Walk(mem, x) == LastMapping(calls, x)
    {
      Walks();
      hide LeafEntry, Walk, Apart, Linked, Held;
      for n := 0 to |calls|
        invariant Valid()
        invariant forall x: Index | x.h < 512 && x.i < 512 && x.j < 512 :: Walk(mem, x) == LastMapping(calls[..n], x)
      {
        assert calls[..n + 1][..n] == calls[..n];
        match calls[n]
        case MapCall(ea, pa, perm) => var _ := Map(ea, pa, perm);
        case UnmapCall(ea) => var _ := Unmap(ea);
      }
      assert calls[..|calls|] == calls;
    }

    /** The walk of every page, from the tree. */
    lemma Walks()
      requires Valid()
      ensures forall x: Index | x.h < 512 && x.i < 512 && x.j < 512 ::
        Walk(mem, x) == if x in tree.leaves then Some(tree.leaves[x]) else None
    {
      forall x: Index | x.h < 512 && x.i < 512 && x.j < 512
        ensures Walk(mem, x) == if x in tree.leaves then Some(tree.leaves[x]) else None
      {
        WalkIsLookup(mem, freePtr, tree, x);
      }
    }

    lemma Unlinked(x: Index)
      requires Valid()
      ensures (x in tree.leaves ==> (x.h, x.i) in tree.ptes) && ((x.h, x.i) in tree.ptes ==> x.h in tree.pmds)
    {}
  }
}
