/**
 Sv39 page tables in physical memory: page-table entries, the three-level walk
 of section 4.4 of the RISC-V Privileged Architecture manual (20211203) as xv6
 uses it, and the tree of table pages it runs over.
 */
module Sv39 {
  const PGSIZE: nat := 4096
  const NPTE: nat := 512
  const PAGES: nat := 0x400_0000 // MAXVA / PGSIZE

  type Page = p: seq<nat> | |p| == NPTE witness seq(NPTE, i => 0) // 64-bit words
  type Mem = map<nat, Page>                                        // by physical address

  function Fill(w: nat): (p: Page)
    ensures forall i :: 0 <= i < NPTE ==> p[i] == w
  {
    seq(NPTE, i => w)
  }

  // ------------------------------------------------------------ one entry

  function Pa2Pte(pa: nat): (e: nat) { pa / 4096 * 1024 }
  function Pte2Pa(e: nat): (pa: nat) { e / 1024 * 4096 }
  function Flags(e: nat): (f: nat) { e % 1024 }
  predicate V(e: nat) { e % 2 == 1 }

  /** PA2PTE(pa) | perm | PTE_V */
  function MakePte(pa: nat, perm: nat): (e: nat) { Pa2Pte(pa) + WithV(perm) }

  function WithV(perm: nat): (f: nat) { perm / 2 * 2 + 1 }

  lemma PteRoundTrip(pa: nat, perm: nat)
    requires perm < 1024
    ensures V(MakePte(pa, perm)) && Pte2Pa(MakePte(pa, perm)) == pa / 4096 * 4096 && Flags(MakePte(pa, perm)) == WithV(perm)
  {
    Split(pa / 4096, WithV(perm));
  }

  lemma Split(q: nat, f: nat)
    requires f < 1024 && f % 2 == 1
    ensures (q * 1024 + f) / 1024 == q && (q * 1024 + f) % 1024 == f && (q * 1024 + f) % 2 == 1
  {
    assert q * 1024 + f == 2 * (q * 512 + f / 2) + 1;
  }

  /** The sum above is the code's bitwise or: the address and flag bits do not overlap. */
  lemma OrIsSum(page: bv64, perm: bv64)
    requires page < 0x40_0000_0000_0000 && perm < 1024
    ensures (page << 10) | perm | 1 == (page << 10) + (perm | 1)
  {
  }

  datatype Mapping = Unmapped | Mapped(pa: nat, flags: nat)

  function Decode(e: nat): (m: Mapping) { if V(e) then Mapped(Pte2Pa(e), Flags(e)) else Unmapped }

  // ------------------------------------------------------------- the walk

  function Word(mem: Mem, pa: nat, i: nat): (w: nat)
    requires i < NPTE
  {
    if pa in mem then mem[pa][i] else 0
  }

  /** What a virtual page number translates to, by memory alone. */
  function Translate(mem: Mem, root: nat, vpn: nat): (m: Mapping) {
    var e2 := Word(mem, root, vpn / 512 / 512 % 512);
    if !V(e2) then Unmapped else
    var e1 := Word(mem, Pte2Pa(e2), vpn / 512 % 512);
    if !V(e1) then Unmapped else
    Decode(Word(mem, Pte2Pa(e1), vpn % 512))
  }

  // ------------------------------------------------------------- the tree

  /** The table page of a root that covers the addresses whose upper index bits are `prefix`. */
  datatype Key = Key(root: nat, level: nat, prefix: nat)

  datatype Role = Free | Table(key: Key) | Owned // Owned: handed out by kalloc(), not a table

  function Child(k: Key, i: nat): (c: Key)
    requires k.level > 0
  {
    Key(k.root, k.level - 1, k.prefix * 512 + i)
  }

  function Parent(c: Key): (k: Key) { Key(c.root, c.level + 1, c.prefix / 512) }

  function Top(root: nat): (k: Key) { Key(root, 2, 0) }

  function Leaf(root: nat, vpn: nat): (k: Key) { Key(root, 0, vpn / 512) }

  /** Below MAXVA the top table uses half its entries. */
  predicate InRange(k: Key) { k.prefix < if k.level == 2 then 1 else if k.level == 1 then 256 else 256 * 512 }

  ghost predicate Placed(mem: Mem, role: map<nat, Role>, tables: map<Key, nat>, k: Key)
    requires k in tables
  {
    && tables[k] in mem && tables[k] in role && role[tables[k]] == Table(k) && tables[k] % PGSIZE == 0
    && k.level <= 2 && InRange(k)
    && (k.level == 2 ==> k == Top(tables[k]))
    && (k.level < 2 ==> Parent(k) in tables)
  }

  /** An interior entry is valid exactly when the child table exists, and then points to it. */
  ghost predicate Linked(mem: Mem, tables: map<Key, nat>, k: Key, i: nat)
    requires k in tables && tables[k] in mem && k.level > 0 && i < NPTE
  {
    var e, c := mem[tables[k]][i], Child(k, i);
    (V(e) <==> c in tables) && (V(e) ==> e == MakePte(tables[c], 0))
  }

  /** The table pages form unshared trees; entries naming the table `hole` are exempt. */
  ghost predicate TreeBut(mem: Mem, role: map<nat, Role>, tables: map<Key, nat>, hole: set<Key>) {
    && (forall k :: k in tables ==> Placed(mem, role, tables, k))
    && (forall p :: p in role && role[p].Table? ==> role[p].key in tables && tables[role[p].key] == p)
    && (forall k, i :: k in tables && k.level > 0 && 0 <= i < NPTE && Child(k, i) !in hole ==> Linked(mem, tables, k, i))
  }

  ghost predicate Tree(mem: Mem, role: map<nat, Role>, tables: map<Key, nat>) {
    TreeBut(mem, role, tables, {})
  }

  lemma AllPlaced(mem: Mem, role: map<nat, Role>, tables: map<Key, nat>, hole: set<Key>)
    requires TreeBut(mem, role, tables, hole)
    ensures forall k :: k in tables ==> Placed(mem, role, tables, k)
  {
  }

  lemma IndexParts(vpn: nat)
    requires vpn < PAGES
    ensures vpn / 512 / 512 < 512
    ensures vpn / 512 == vpn / 512 / 512 * 512 + vpn / 512 % 512
    ensures vpn == vpn / 512 * 512 + vpn % 512
  {
  }

  lemma ChildParent(k: Key, i: nat)
    requires k.level > 0 && i < NPTE
    ensures Parent(Child(k, i)) == k && Child(k, i).prefix % 512 == i
  {
  }

  /** In a tree the walk ends in the leaf table of the page number, if that exists. */
  lemma TreeTranslate(mem: Mem, role: map<nat, Role>, tables: map<Key, nat>, root: nat, vpn: nat)
    requires Tree(mem, role, tables) && Top(root) in tables && vpn < PAGES
    ensures var k := Leaf(root, vpn);
            Translate(mem, root, vpn) == if k in tables then Decode(mem[tables[k]][vpn % 512]) else Unmapped
  {
    IndexParts(vpn);
    var i2, i1 := vpn / 512 / 512, vpn / 512 % 512;
    var k2 := Top(root);
    var k1 := Child(k2, i2);
    var k0 := Leaf(root, vpn);
    assert Placed(mem, role, tables, k2) && tables[k2] == root;
    assert Linked(mem, tables, k2, i2);
    assert k1 == Key(root, 1, i2);
    if k1 in tables {
      assert Placed(mem, role, tables, k1);
      PteRoundTrip(tables[k1], 0);
      assert Child(k1, i1) == k0;
      assert Linked(mem, tables, k1, i1);
      if k0 in tables {
        assert Placed(mem, role, tables, k0);
        PteRoundTrip(tables[k0], 0);
      }
    } else {
      assert Parent(k0) == k1;
      assert k0 in tables ==> Placed(mem, role, tables, k0);
    }
  }

  /** A change away from the table pages. */
  lemma TreeFrame(mem: Mem, role: map<nat, Role>, mem': Mem, role': map<nat, Role>, tables: map<Key, nat>, hole: set<Key>)
    requires TreeBut(mem, role, tables, hole)
    requires forall k :: k in tables ==> tables[k] in mem' && mem'[tables[k]] == mem[tables[k]]
    requires forall k :: k in tables ==> tables[k] in role' && role'[tables[k]] == Table(k)
    requires forall p :: p in role' && role'[p].Table? ==> p in role && role[p] == role'[p]
    ensures TreeBut(mem', role', tables, hole)
  {
    forall k, i | k in tables && k.level > 0 && 0 <= i < NPTE && Child(k, i) !in hole ensures Linked(mem', tables, k, i) {
      assert Linked(mem, tables, k, i);
    }
    forall k | k in tables ensures Placed(mem', role', tables, k) {
      assert Placed(mem, role, tables, k);
    }
  }

  lemma TranslateFrame(mem: Mem, role: map<nat, Role>, mem': Mem, role': map<nat, Role>, tables: map<Key, nat>, root: nat, vpn: nat)
    requires Tree(mem, role, tables) && Tree(mem', role', tables) && Top(root) in tables && vpn < PAGES
    requires forall k :: k in tables ==> tables[k] in mem && tables[k] in mem' && mem'[tables[k]] == mem[tables[k]]
    ensures Translate(mem', root, vpn) == Translate(mem, root, vpn)
  {
    hide TreeBut, Translate;
    TreeTranslate(mem, role, tables, root, vpn);
    TreeTranslate(mem', role', tables, root, vpn);
  }

  /** A store to one leaf entry. */
  lemma LeafStore(mem: Mem, role: map<nat, Role>, tables: map<Key, nat>, k: Key, i: nat, e: nat)
    requires Tree(mem, role, tables) && k in tables && k.level == 0 && tables[k] in mem && i < NPTE
    ensures Tree(mem[tables[k] := mem[tables[k]][i := e]], role, tables)
  {
    var mem' := mem[tables[k] := mem[tables[k]][i := e]];
    forall k', j | k' in tables && k'.level > 0 && 0 <= j < NPTE ensures Linked(mem', tables, k', j) {
      assert Placed(mem, role, tables, k') && Placed(mem, role, tables, k);
      assert Linked(mem, tables, k', j);
    }
    forall k' | k' in tables ensures Placed(mem', role, tables, k') {
      assert Placed(mem, role, tables, k');
    }
  }

  /** It changes the translation of that one page. */
  lemma LeafTranslate(mem: Mem, role: map<nat, Role>, tables: map<Key, nat>, k: Key, i: nat, e: nat, root: nat, vpn: nat)
    requires Tree(mem, role, tables) && k in tables && k.level == 0 && tables[k] in mem && i < NPTE
    requires Top(root) in tables && vpn < PAGES
    ensures Translate(mem[tables[k] := mem[tables[k]][i := e]], root, vpn) ==
            if root == k.root && vpn == k.prefix * 512 + i then Decode(e) else Translate(mem, root, vpn)
  {
    var mem' := mem[tables[k] := mem[tables[k]][i := e]];
    LeafStore(mem, role, tables, k, i, e);
    TreeTranslate(mem, role, tables, root, vpn);
    TreeTranslate(mem', role, tables, root, vpn);
    var l := Leaf(root, vpn);
    if l in tables {
      assert Placed(mem, role, tables, l) && Placed(mem, role, tables, k);
      assert l == k || tables[l] != tables[k];
    }
    if root == k.root && vpn == k.prefix * 512 + i {
      assert l == k && vpn % 512 == i;
    }
  }

  /** A fresh zeroed table hung into an empty interior entry. */
  lemma GrowTree(mem: Mem, role: map<nat, Role>, tables: map<Key, nat>, k: Key, i: nat, pa: nat)
    requires Tree(mem, role, tables) && k in tables && k.level > 0 && tables[k] in mem && i < NPTE && !V(mem[tables[k]][i])
    requires pa in mem && pa in role && !role[pa].Table? && pa % PGSIZE == 0 && InRange(Child(k, i))
    ensures var mem' := mem[pa := Fill(0)][tables[k] := mem[tables[k]][i := MakePte(pa, 0)]];
            Tree(mem', role[pa := Table(Child(k, i))], tables[Child(k, i) := pa])
  {
    var c := Child(k, i);
    var mem' := mem[pa := Fill(0)][tables[k] := mem[tables[k]][i := MakePte(pa, 0)]];
    var role', tables' := role[pa := Table(c)], tables[c := pa];
    ChildParent(k, i);
    assert Placed(mem, role, tables, k) && Linked(mem, tables, k, i);
    assert c !in tables && tables[k] != pa;
    forall k' | k' in tables' ensures Placed(mem', role', tables', k') {
      if k' in tables { assert Placed(mem, role, tables, k'); }
    }
    forall k', j | k' in tables' && k'.level > 0 && 0 <= j < NPTE ensures Linked(mem', tables', k', j) {
      ChildParent(k', j);
      GrowLinked(mem, role, tables, k, i, pa, k', j);
    }
  }

  lemma GrowLinked(mem: Mem, role: map<nat, Role>, tables: map<Key, nat>, k: Key, i: nat, pa: nat, k': Key, j: nat)
    requires Tree(mem, role, tables) && k in tables && k.level > 0 && tables[k] in mem && i < NPTE && !V(mem[tables[k]][i])
    requires pa in mem && pa in role && !role[pa].Table? && pa % PGSIZE == 0 && InRange(Child(k, i))
    requires (k' in tables || k' == Child(k, i)) && k'.level > 0 && j < NPTE
    ensures var mem' := mem[pa := Fill(0)][tables[k] := mem[tables[k]][i := MakePte(pa, 0)]];
            var tables' := tables[Child(k, i) := pa];
            tables'[k'] in mem' && Linked(mem', tables', k', j)
  {
    var c := Child(k, i);
    ChildParent(k, i);
    ChildParent(k', j);
    assert Placed(mem, role, tables, k) && Linked(mem, tables, k, i);
    PteRoundTrip(pa, 0);
    if k' == c {
      assert Child(k', j) in tables ==> Placed(mem, role, tables, Child(k', j));
    } else {
      assert Placed(mem, role, tables, k') && Linked(mem, tables, k', j);
    }
  }

  lemma GrowTranslate(mem: Mem, role: map<nat, Role>, tables: map<Key, nat>, k: Key, i: nat, pa: nat, root: nat, vpn: nat)
    requires Tree(mem, role, tables) && k in tables && k.level > 0 && tables[k] in mem && i < NPTE && !V(mem[tables[k]][i])
    requires pa in mem && pa in role && !role[pa].Table? && pa % PGSIZE == 0 && InRange(Child(k, i))
    requires Top(root) in tables && vpn < PAGES
    ensures var mem' := mem[pa := Fill(0)][tables[k] := mem[tables[k]][i := MakePte(pa, 0)]];
            Translate(mem', root, vpn) == Translate(mem, root, vpn)
  {
    var mem' := mem[pa := Fill(0)][tables[k] := mem[tables[k]][i := MakePte(pa, 0)]];
    GrowTree(mem, role, tables, k, i, pa);
    TreeTranslate(mem, role, tables, root, vpn);
    TreeTranslate(mem', role[pa := Table(Child(k, i))], tables[Child(k, i) := pa], root, vpn);
    assert Placed(mem, role, tables, k) && Linked(mem, tables, k, i);
    var l := Leaf(root, vpn);
    if l in tables {
      assert Placed(mem, role, tables, l);
    }
  }
}
