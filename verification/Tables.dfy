/** The page tables this kernel actually builds: five pages, the first three
    holding one or two interior entries, the last two holding the 1024 slots of
    the first 4 MB of virtual memory (vm.c:22-34, kernel.c:141-168). */
module Tables {
  import opened X86
  import opened Paging

  /** Root, level 2, level 3 and the two last-level pages. */
  datatype Table = Table(l1: nat, l2: nat, l3: nat, lo: nat, hi: nat) {
    function Nth(i: nat): nat {
      match i
      case 0 => l1
      case 1 => l2
      case 2 => l3
      case 3 => lo
      case _ => hi
    }

    predicate Has(p: int) {
      p == l1 || p == l2 || p == l3 || p == lo || p == hi
    }

    predicate Distinct() {
      && l1 < 512 && l2 < 512 && l3 < 512 && lo < 512 && hi < 512
      && l1 != l2 && l1 != l3 && l1 != lo && l1 != hi
      && l2 != l3 && l2 != lo && l2 != hi
      && l3 != lo && l3 != hi && lo != hi
    }
  }

  /** A present, writable, user-accessible entry for page `p`. */
  function Full(p: nat): Word
    requires p < 512
  {
    p * 4096 + 7
  }

  predicate Wired(mem: Memory, t: Table) {
    && t.Distinct()
    && mem[t.l1] == ZeroPage()[0 := Full(t.l2)]
    && mem[t.l2] == ZeroPage()[0 := Full(t.l3)]
    && mem[t.l3] == ZeroPage()[0 := Full(t.lo)][1 := Full(t.hi)]
  }

  /** The table found by following entries from `root`, as INT_SYS_EXIT does
      (kernel.c:400-404). */
  function TableAt(mem: Memory, root: nat): Table {
    var l2 := Frame(Entry(mem, root, 0));
    var l3 := Frame(Entry(mem, l2, 0));
    Table(root, l2, l3, Frame(Entry(mem, l3, 0)), Frame(Entry(mem, l3, 1)))
  }

  lemma TableAtWired(mem: Memory, t: Table)
    requires Wired(mem, t)
    ensures TableAt(mem, t.l1) == t
  {
  }

  function Slot(mem: Memory, t: Table, v: nat): Word
    requires v < 1024
  {
    if v < 512 then Entry(mem, t.lo, v) else Entry(mem, t.hi, v - 512)
  }

  function WriteSlot(mem: Memory, t: Table, v: nat, w: Word): Memory
    requires v < 1024 && t.Distinct()
  {
    if v < 512 then SetEntry(mem, t.lo, v, w) else SetEntry(mem, t.hi, v - 512, w)
  }

  /** What a slot means for an address at offset `off` in its page. */
  function Decode(e: Word, off: nat): VaMapping {
    if Present(e) then VaMapping(ToInt32(Frame(e)), Frame(e) * 4096 + off, PteFlags(e)) else UNMAPPED
  }

  lemma FullBits(p: nat)
    requires p < 512
    ensures Present(Full(p)) && Writable(Full(p)) && UserOk(Full(p)) && Frame(Full(p)) == p
  {
    Bits(Full(p), p * 512, 1, 1, 1);
  }

  /** Which addresses use the first one or two entries of each level. */
  lemma FirstIndices(va: Va)
    ensures PageIndex(va, 0) == 0 <==> va < 0x80_0000_0000
    ensures va < 0x80_0000_0000 ==> (PageIndex(va, 1) == 0 <==> va < 0x4000_0000)
    ensures va < 0x4000_0000 ==> (PageIndex(va, 2) == 0 <==> va < 0x20_0000)
    ensures va < 0x4000_0000 ==> (PageIndex(va, 2) == 1 <==> 0x20_0000 <= va < 0x40_0000)
  {
  }

  lemma LastIndex(va: Va)
    requires va < 0x40_0000
    ensures va / 4096 < 1024 && (va < 0x20_0000 <==> va / 4096 < 512)
    ensures PageIndex(va, 3) == if va < 0x20_0000 then va / 4096 else va / 4096 - 512
  {
  }

  /** The interior walk of a wired table. */
  lemma WiredUpper(mem: Memory, t: Table, va: Va)
    requires Wired(mem, t)
    ensures E1(mem, t.l1, va) == if va < 0x80_0000_0000 then Full(t.l2) else 0
    ensures E2(mem, t.l1, va) == if va < 0x4000_0000 then Full(t.l3) else 0
    ensures E3(mem, t.l1, va) == if va < 0x20_0000 then Full(t.lo) else if va < 0x40_0000 then Full(t.hi) else 0
  {
    hide PageIndex, Full, Frame;
    FirstIndices(va);
    FullBits(t.l2);
    FullBits(t.l3);
  }

  lemma WiredLeaf(mem: Memory, t: Table, va: Va)
    requires Wired(mem, t)
    ensures E4(mem, t.l1, va) == if va < 0x40_0000 then Slot(mem, t, va / 4096) else 0
  {
    assert t.Distinct();
    hide PageIndex, Full, Frame, E3, Wired;
    WiredUpper(mem, t, va);
    FullBits(t.lo);
    FullBits(t.hi);
    if va < 0x40_0000 {
      LastIndex(va);
    }
  }

  lemma SameHalf(a: Va, b: Va)
    ensures a < 0x20_0000 && b < 0x20_0000 ==> a / 0x20_0000 == b / 0x20_0000
    ensures 0x20_0000 <= a < 0x40_0000 && 0x20_0000 <= b < 0x40_0000 ==> a / 0x20_0000 == b / 0x20_0000
  {
  }

  lemma WiredSeparated(mem: Memory, t: Table, a: Va, b: Va)
    requires Wired(mem, t)
    ensures Separated(mem, t.l1, a, b)
  {
    SameHalf(a, b);
    WiredUpper(mem, t, a);
    WiredUpper(mem, t, b);
    FullBits(t.l2);
    FullBits(t.l3);
    FullBits(t.lo);
    FullBits(t.hi);
  }

  lemma WiredInterior(mem: Memory, t: Table, a: Va)
    requires Wired(mem, t)
    ensures InteriorAt(mem, t.l1, a)
  {
    WiredUpper(mem, t, a);
    FullBits(t.l2);
    FullBits(t.l3);
    FullBits(t.lo);
    FullBits(t.hi);
  }

  lemma WiredWellFormed(mem: Memory, t: Table)
    requires Wired(mem, t)
    ensures WellFormed(mem, t.l1)
  {
    assert t.Distinct();
    hide Separated, InteriorAt;
    forall a: Va, b: Va ensures Separated(mem, t.l1, a, b) {
      WiredSeparated(mem, t, a, b);
    }
    forall a: Va ensures InteriorAt(mem, t.l1, a) {
      WiredInterior(mem, t, a);
    }
  }

  /** Lookup through a wired table reads one slot. */
  lemma LookupWired(mem: Memory, t: Table, va: Va)
    requires Wired(mem, t)
    ensures Lookup(mem, t.l1, va)
         == if va < 0x40_0000 then Decode(Slot(mem, t, va / 4096), va % 4096) else UNMAPPED
  {
    WiredWellFormed(mem, t);
    LookupExact(mem, t.l1, va);
    WiredLeaf(mem, t, va);
  }

  /** Mapping one page through a wired table writes one slot. */
  lemma MapWired(mem: Memory, t: Table, v: nat, pa: nat, perm: nat)
    requires Wired(mem, t) && v < 1024 && MapArgs(v * 4096, pa, 1, perm)
    ensures MapPages(mem, t.l1, v * 4096, pa, 1, perm) == (WriteSlot(mem, t, v, LeafEntry(pa, perm)), 0)
  {
    assert t.Distinct();
    hide E3, Wired, Full, Frame, Present;
    WiredUpper(mem, t, v * 4096);
    FullBits(t.lo);
    FullBits(t.hi);
    var m := WriteSlot(mem, t, v, LeafEntry(pa, perm));
    assert MapPages(m, t.l1, v * 4096 + 4096, pa + 4096, 0, perm) == (m, 0);
  }

  lemma MapBeyond(mem: Memory, t: Table, va: Va, pa: nat, perm: nat)
    requires Wired(mem, t) && va >= 0x40_0000 && MapArgs(va, pa, 1, perm)
    ensures MapPages(mem, t.l1, va, pa, 1, perm) == (mem, if Present(perm) then -1 else 0)
  {
    WiredUpper(mem, t, va);
    hide E3;
    if !Present(perm) {
      assert MapPages(mem, t.l1, va + 4096, pa + 4096, 0, perm) == (mem, 0);
    }
  }

  /** A slot write keeps the table and every other slot. */
  lemma WriteSlotKeeps(mem: Memory, t: Table, v: nat, w: Word)
    requires Wired(mem, t) && v < 1024
    ensures var m := WriteSlot(mem, t, v, w);
            && Wired(m, t)
            && (forall u :: 0 <= u < 1024 ==> Slot(m, t, u) == if u == v then w else Slot(mem, t, u))
            && (forall p :: 0 <= p < 512 && p != t.lo && p != t.hi ==> m[p] == mem[p])
  {
  }

  /** Memory that agrees on the five pages of a table agrees on its meaning. */
  lemma TableFrame(mem: Memory, m: Memory, t: Table)
    requires Wired(mem, t)
    requires m[t.l1] == mem[t.l1] && m[t.l2] == mem[t.l2] && m[t.l3] == mem[t.l3]
    requires m[t.lo] == mem[t.lo] && m[t.hi] == mem[t.hi]
    ensures Wired(m, t)
    ensures forall v :: 0 <= v < 1024 ==> Slot(m, t, v) == Slot(mem, t, v)
  {
  }
}
