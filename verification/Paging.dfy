/** vm.c: four-level page tables stored in physical memory. A table is a view of
    memory starting at a root page; nothing but the invariant keeps a write to
    one page from changing what another table means. */
module Paging {
  import opened X86

  /** The `vamapping` struct; `UNMAPPED` is the value vm.c returns for an
      address without a present mapping. */
  datatype VaMapping = VaMapping(pn: int, pa: int, perm: Perm)

  /** The flag bits of an entry. */
  type Perm = p: int | 0 <= p < 4096

  const UNMAPPED := VaMapping(-1, 0xFFFF_FFFF_FFFF_FFFF, 0)

  // ---------------------------------------------------------------- the walk

  /** Word `i` of page `p`; memory that is not installed reads as zero. */
  function Entry(mem: Memory, p: nat, i: nat): Word
    requires i < 512
  {
    if p < 512 then mem[p][i] else 0
  }

  // The entries a walk for `va` meets at levels 1 to 4 (0 beyond a missing level).
  function E1(mem: Memory, root: nat, va: Va): Word {
    Entry(mem, root, PageIndex(va, 0))
  }

  function E2(mem: Memory, root: nat, va: Va): Word {
    var e := E1(mem, root, va);
    if Present(e) then Entry(mem, Frame(e), PageIndex(va, 1)) else 0
  }

  function E3(mem: Memory, root: nat, va: Va): Word {
    var e := E2(mem, root, va);
    if Present(e) then Entry(mem, Frame(e), PageIndex(va, 2)) else 0
  }

  function E4(mem: Memory, root: nat, va: Va): Word {
    var e := E3(mem, root, va);
    if Present(e) then Entry(mem, Frame(e), PageIndex(va, 3)) else 0
  }

  function ToInt32(x: nat): int {
    (x + 0x8000_0000) % 0x1_0000_0000 - 0x8000_0000
  }

  /** What `virtual_memory_lookup` reports. */
  function Lookup(mem: Memory, root: nat, va: Va): VaMapping {
    var e2, e3, e4 := E2(mem, root, va), E3(mem, root, va), E4(mem, root, va);
    if Present(e4) then
      VaMapping(ToInt32(Frame(e4)), Frame(e4) * 4096 + va % 4096,
                PteFlags(ClearBits(e4, Writable(e3) && !Writable(e2), UserOk(e3) && !UserOk(e2))))
    else
      UNMAPPED
  }

  /** Every page the walk for `va` reads is installed. */
  predicate WalkInstalled(mem: Memory, root: nat, va: Va) {
    && root < 512
    && (Present(E1(mem, root, va)) ==> Frame(E1(mem, root, va)) < 512)
    && (Present(E2(mem, root, va)) ==> Frame(E2(mem, root, va)) < 512)
    && (Present(E3(mem, root, va)) ==> Frame(E3(mem, root, va)) < 512)
  }

  /** The loop of vm.c:194-208. */
  method VirtualMemoryLookup(mem: array<Page>, root: nat, va: Va) returns (vam: VaMapping)
    requires mem.Length == 512 && WalkInstalled(mem[..], root, va)
    ensures vam == Lookup(mem[..], root, va)
  {
    var pt := root;
    var pe: Word := 7;
    var i := 0;
    ghost var m: Memory := mem[..];
    while i <= 3 && Present(pe)
      invariant 0 <= i <= 4
      invariant i == 0 ==> pt == root && pe == 7
      invariant i == 1 ==> pe == ClearBits(E1(m, root, va), true, true)
      invariant i == 2 ==> pe == E2(m, root, va) && Present(E1(m, root, va))
      invariant i == 3 ==> pe == ClearBits(E3(m, root, va), Writable(E2(m, root, va)), UserOk(E2(m, root, va)))
                           && Present(E2(m, root, va))
      invariant i == 4 ==> pe == ClearBits(E4(m, root, va),
                                           Writable(E3(m, root, va)) && !Writable(E2(m, root, va)),
                                           UserOk(E3(m, root, va)) && !UserOk(E2(m, root, va)))
                           && Present(E3(m, root, va))
      invariant i > 0 ==> pt == Frame(pe)
    {
      pe := ClearBits(mem[pt][PageIndex(va, i)], Writable(pe), UserOk(pe));
      pt := Frame(pe);
      i := i + 1;
    }
    vam := UNMAPPED;
    if Present(pe) {
      vam := VaMapping(ToInt32(Frame(pe)), Frame(pe) * 4096 + va % 4096, PteFlags(pe));
    }
  }

  /** On every fully present walk the loop reports W (and U) of level 4 provided
      level 3 having it implies level 2 having it; level 1 is never consulted. */
  lemma LookupReportsBits(mem: Memory, root: nat, va: Va)
    requires Present(E4(mem, root, va))
    ensures Lookup(mem, root, va) != UNMAPPED
    ensures var perm := Lookup(mem, root, va).perm;
            && Present(perm)
            && (Writable(perm) <==>
              Writable(E4(mem, root, va)) && (Writable(E3(mem, root, va)) ==> Writable(E2(mem, root, va))))
            && (UserOk(perm) <==>
              UserOk(E4(mem, root, va)) && (UserOk(E3(mem, root, va)) ==> UserOk(E2(mem, root, va))))
  {
    var e2, e3, e4 := E2(mem, root, va), E3(mem, root, va), E4(mem, root, va);
    FlagsKeepBits(ClearBits(e4, Writable(e3) && !Writable(e2), UserOk(e3) && !UserOk(e2)));
  }

  lemma FlagsKeepBits(e: Word)
    ensures Present(PteFlags(e)) == Present(e)
    ensures Writable(PteFlags(e)) == Writable(e) && UserOk(PteFlags(e)) == UserOk(e)
  {
    BitsOf(e);
    Bits(e, e / 8, e % 2, e / 2 % 2, e / 4 % 2);
    Bits(e % 4096, e / 8 % 512, e % 2, e / 2 % 2, e / 4 % 2);
  }

  // The processor grants an access only if every level grants it.
  predicate HardwareWritable(mem: Memory, root: nat, va: Va) {
    && Writable(E1(mem, root, va)) && Writable(E2(mem, root, va))
    && Writable(E3(mem, root, va)) && Writable(E4(mem, root, va))
  }

  predicate HardwareUser(mem: Memory, root: nat, va: Va) {
    && UserOk(E1(mem, root, va)) && UserOk(E2(mem, root, va))
    && UserOk(E3(mem, root, va)) && UserOk(E4(mem, root, va))
  }

  // --------------------------------------------------------- well-formed tables

  predicate InteriorOk(e: Word) {
    Present(e) ==> Writable(e) && UserOk(e) && Frame(e) < 512
  }

  /** The last-level page found for `a` is neither an interior page met by the
      walk for `b` nor the last-level page of another 2 MB region. */
  ghost predicate Separated(mem: Memory, root: nat, a: Va, b: Va) {
    Present(E3(mem, root, a)) ==>
      var l4 := Frame(E3(mem, root, a));
      && l4 != root
      && (Present(E1(mem, root, b)) ==> Frame(E1(mem, root, b)) != l4)
      && (Present(E2(mem, root, b)) ==> Frame(E2(mem, root, b)) != l4)
      && (Present(E3(mem, root, b)) && Frame(E3(mem, root, b)) == l4 ==> a / 0x20_0000 == b / 0x20_0000)
  }

  ghost predicate InteriorAt(mem: Memory, root: nat, va: Va) {
    InteriorOk(E1(mem, root, va)) && InteriorOk(E2(mem, root, va)) && InteriorOk(E3(mem, root, va))
  }

  ghost predicate WellFormed(mem: Memory, root: nat) {
    && root < 512
    && (forall va: Va :: InteriorAt(mem, root, va))
    && (forall a: Va, b: Va :: Separated(mem, root, a, b))
  }

  /** On a well-formed table the reported bits are the ones the processor uses. */
  lemma LookupAgreesWithHardware(mem: Memory, root: nat, va: Va)
    requires WellFormed(mem, root) && Present(E4(mem, root, va))
    ensures Writable(Lookup(mem, root, va).perm) <==> HardwareWritable(mem, root, va)
    ensures UserOk(Lookup(mem, root, va).perm) <==> HardwareUser(mem, root, va)
  {
    assert InteriorAt(mem, root, va);
    LookupReportsBits(mem, root, va);
  }

  /** A well-formed table reports exactly the flags of the last-level entry. */
  lemma LookupExact(mem: Memory, root: nat, va: Va)
    requires WellFormed(mem, root)
    ensures Lookup(mem, root, va)
         == (var e := E4(mem, root, va);
             if Present(e) then VaMapping(ToInt32(Frame(e)), Frame(e) * 4096 + va % 4096, PteFlags(e))
             else UNMAPPED)
  {
    assert InteriorAt(mem, root, va);
  }

  // ------------------------------------------------------------------ mapping

  /** The value stored for a page: `pa` counts only for a present mapping. */
  function LeafEntry(pa: nat, perm: nat): Word
    requires perm < 4096
    requires Present(perm) ==> pa % 4096 == 0 && pa < 0x20_0000
  {
    if Present(perm) then pa + perm else perm
  }

  function SetEntry(mem: Memory, p: nat, i: nat, w: Word): (m: Memory)
    requires p < 512 && i < 512
  {
    mem[p := mem[p][i := w]]
  }

  /** The asserts at the head of `virtual_memory_map`, for `n` pages of 48-bit
      addresses. */
  predicate MapArgs(va: nat, pa: nat, n: nat, perm: nat) {
    && va % 4096 == 0 && va + n * 4096 <= 0x1_0000_0000_0000
    && perm < 4096
    && (Present(perm) ==> pa % 4096 == 0 && pa + n * 4096 <= 0x20_0000)
  }

  lemma MapArgsNext(va: nat, pa: nat, n: nat, perm: nat)
    requires MapArgs(va, pa, n, perm) && n > 0
    ensures MapArgs(va + 4096, pa + 4096, n - 1, perm)
    ensures va < 0x1_0000_0000_0000 && (Present(perm) ==> pa % 4096 == 0 && pa < 0x20_0000)
  {
  }

  /** The reference form of `virtual_memory_map`: every page walks from the root. */
  function MapPages(mem: Memory, root: nat, va: nat, pa: nat, n: nat, perm: nat): (r: (Memory, int))
    requires MapArgs(va, pa, n, perm)
    decreases n
  {
    if n == 0 then
      (mem, 0)
    else
      MapArgsNext(va, pa, n, perm);
      var e := E3(mem, root, va);
      if Present(e) && Frame(e) < 512 then
        var m := SetEntry(mem, Frame(e), PageIndex(va, 3), LeafEntry(pa, perm));
        MapPages(m, root, va + 4096, pa + 4096, n - 1, perm)
      else if Present(perm) then
        (mem, -1)
      else
        MapPages(mem, root, va + 4096, pa + 4096, n - 1, perm)
  }

  /** Writing a last-level entry disturbs no interior entry of its own table. */
  lemma LeafWriteUpper(mem: Memory, root: nat, a: Va, b: Va, w: Word)
    requires WellFormed(mem, root) && Present(E3(mem, root, a))
    ensures Frame(E3(mem, root, a)) < 512
    ensures var m := SetEntry(mem, Frame(E3(mem, root, a)), PageIndex(a, 3), w);
            && E1(m, root, b) == E1(mem, root, b)
            && E2(m, root, b) == E2(mem, root, b)
            && E3(m, root, b) == E3(mem, root, b)
  {
    assert InteriorAt(mem, root, a);
    assert Separated(mem, root, a, b);
  }

  /** ... and changes exactly one last-level entry. */
  lemma LeafWrite(mem: Memory, root: nat, a: Va, b: Va, w: Word)
    requires WellFormed(mem, root) && Present(E3(mem, root, a))
    ensures Frame(E3(mem, root, a)) < 512
    ensures E4(SetEntry(mem, Frame(E3(mem, root, a)), PageIndex(a, 3), w), root, b)
         == if a / 4096 == b / 4096 then w else E4(mem, root, b)
  {
    LeafWriteUpper(mem, root, a, b, w);
    assert Separated(mem, root, a, b);
    SamePage(a, b);
    if a / 4096 == b / 4096 {
      SameRegion(mem, root, a, b);
    }
  }

  lemma SameRegion(mem: Memory, root: nat, a: Va, b: Va)
    requires a / 0x20_0000 == b / 0x20_0000
    ensures E3(mem, root, a) == E3(mem, root, b)
  {
    UpperIndices(a, b);
    assert PageIndex(a, 0) == PageIndex(b, 0) && PageIndex(a, 1) == PageIndex(b, 1)
      && PageIndex(a, 2) == PageIndex(b, 2);
  }

  lemma LeafWriteWellFormed(mem: Memory, root: nat, a: Va, w: Word)
    requires WellFormed(mem, root) && Present(E3(mem, root, a))
    ensures Frame(E3(mem, root, a)) < 512
    ensures WellFormed(SetEntry(mem, Frame(E3(mem, root, a)), PageIndex(a, 3), w), root)
  {
    LeafWriteUpper(mem, root, a, a, w);
    var m := SetEntry(mem, Frame(E3(mem, root, a)), PageIndex(a, 3), w);
    forall va: Va ensures InteriorAt(m, root, va) {
      LeafWriteUpper(mem, root, a, va, w);
      assert InteriorAt(mem, root, va);
    }
    forall x: Va, y: Va ensures Separated(m, root, x, y) {
      LeafWriteUpper(mem, root, a, x, w);
      LeafWriteUpper(mem, root, a, y, w);
      assert Separated(mem, root, x, y);
    }
  }

  /** How many of the `n` pages get mapped before a missing last-level table
      stops the loop (mapping nothing never stops it). */
  function Mapped(mem: Memory, root: nat, va: nat, n: nat, perm: nat): (k: nat)
    requires va % 4096 == 0 && va + n * 4096 <= 0x1_0000_0000_0000 && perm < 4096
    ensures k <= n
    decreases n
  {
    if n == 0 then 0
    else if Present(perm) && !HasTable(mem, root, va) then 0
    else 1 + Mapped(mem, root, va + 4096, n - 1, perm)
  }

  /** All `n` pages are mapped iff no page of a present mapping lacks a table. */
  lemma {:induction false} MappedAll(mem: Memory, root: nat, va: nat, n: nat, perm: nat)
    requires va % 4096 == 0 && va + n * 4096 <= 0x1_0000_0000_0000 && perm < 4096
    ensures Mapped(mem, root, va, n, perm) == n
       <==> !Present(perm) || forall x: Va :: va <= x < va + n * 4096 && x % 4096 == 0 ==> HasTable(mem, root, x)
    decreases n
  {
    hide HasTable;
    if n > 0 {
      MappedAll(mem, root, va + 4096, n - 1, perm);
      assert forall x: Va :: va <= x < va + n * 4096 && x % 4096 == 0 ==> x == va || va + 4096 <= x;
    }
  }

  predicate HasTable(mem: Memory, root: nat, va: Va) {
    Present(E3(mem, root, va))
  }

  /** The mapping an address inside a mapped range is promised. */
  function Promised(pa: nat, perm: nat): VaMapping
    requires perm < 4096
  {
    if perm % 2 == 1 then VaMapping(pa / 4096, pa, perm) else UNMAPPED
  }

  lemma LeafDecode(pa: nat, perm: nat, off: nat)
    requires perm < 4096 && off < 4096
    requires Present(perm) ==> pa % 4096 == 0 && pa < 0x20_0000
    ensures var e := LeafEntry(pa, perm);
            && Present(e) == Present(perm)
            && (Present(perm) ==>
              Frame(e) == pa / 4096 && PteFlags(e) == perm && ToInt32(Frame(e)) == (pa + off) / 4096)
  {
    if Present(perm) {
      DivMod(pa + perm, 4096, pa / 4096, perm);
      DivMod(pa + off, 4096, pa / 4096, off);
      DivMod(pa + perm, 2, pa / 4096 * 2048 + perm / 2, perm % 2);
    }
  }

  /** One page: the target page gets the promised mapping, every other address
      keeps its own. */
  lemma LeafWriteLookup(mem: Memory, root: nat, va: Va, pa: nat, perm: nat, x: Va)
    requires WellFormed(mem, root) && HasTable(mem, root, va)
    requires MapArgs(va, pa, 1, perm)
    ensures Frame(E3(mem, root, va)) < 512
    ensures Lookup(SetEntry(mem, Frame(E3(mem, root, va)), PageIndex(va, 3), LeafEntry(pa, perm)), root, x)
         == if va <= x < va + 4096 then Promised(pa + (x - va), perm) else Lookup(mem, root, x)
  {
    var w := LeafEntry(pa, perm);
    LeafWriteWellFormed(mem, root, va, w);
    LeafWrite(mem, root, va, x, w);
    LookupExact(mem, root, x);
    LookupExact(SetEntry(mem, Frame(E3(mem, root, va)), PageIndex(va, 3), w), root, x);
    assert va / 4096 == x / 4096 <==> va <= x < va + 4096;
    LeafDecode(pa, perm, x % 4096);
    if va <= x < va + 4096 {
      assert x % 4096 == x - va;
    }
  }

  /** virtual_memory_map's promise with its frame: all of `[va, va + n pages)`
      that has tables is mapped, nothing else changes, and -1 is returned exactly
      when a present mapping met a missing table. */
  lemma MapThenLookup(mem: Memory, root: nat, va: nat, pa: nat, n: nat, perm: nat)
    requires WellFormed(mem, root) && MapArgs(va, pa, n, perm)
    ensures var (m, r) := MapPages(mem, root, va, pa, n, perm);
            var k := Mapped(mem, root, va, n, perm);
            && WellFormed(m, root)
            && r == (if k == n then 0 else -1)
            && forall x: Va :: Lookup(m, root, x)
                 == if va <= x < va + k * 4096 then Promised(pa + (x - va), perm) else Lookup(mem, root, x)
  {
    MapResult(mem, root, va, pa, n, perm);
    forall x: Va
      ensures Lookup(MapPages(mem, root, va, pa, n, perm).0, root, x)
           == if va <= x < va + Mapped(mem, root, va, n, perm) * 4096 then Promised(pa + (x - va), perm)
              else Lookup(mem, root, x)
    {
      MapThenLookupAt(mem, root, va, pa, n, perm, x);
    }
  }

  lemma {:induction false} MapThenLookupAt(mem: Memory, root: nat, va: nat, pa: nat, n: nat, perm: nat, x: Va)
    requires WellFormed(mem, root) && MapArgs(va, pa, n, perm)
    ensures Lookup(MapPages(mem, root, va, pa, n, perm).0, root, x)
         == if va <= x < va + Mapped(mem, root, va, n, perm) * 4096 then Promised(pa + (x - va), perm)
            else Lookup(mem, root, x)
    decreases n
  {
    hide PageIndex, Lookup, Frame, WellFormed, E3, LeafEntry;
    if n == 0 {
    } else if HasTable(mem, root, va) {
      var w := LeafEntry(pa, perm);
      LeafWriteWellFormed(mem, root, va, w);
      var m := SetEntry(mem, Frame(E3(mem, root, va)), PageIndex(va, 3), w);
      MappedFrame(mem, m, root, va, w, va + 4096, n - 1, perm);
      MapThenLookupAt(m, root, va + 4096, pa + 4096, n - 1, perm, x);
      LeafWriteLookup(mem, root, va, pa, perm, x);
    } else if !Present(perm) {
      MapThenLookupAt(mem, root, va + 4096, pa + 4096, n - 1, perm, x);
      if va <= x < va + 4096 {
        NoTableUnmapped(mem, root, va, x);
      }
    }
  }

  lemma NoTableUnmapped(mem: Memory, root: nat, va: nat, x: Va)
    requires va % 4096 == 0 && va <= x < va + 4096
    requires !HasTable(mem, root, va)
    ensures Lookup(mem, root, x) == UNMAPPED
  {
    assert x / 4096 == va / 4096;
    SamePage(x, va);
    SameRegion(mem, root, va, x);
  }

  lemma {:induction false} MapResult(mem: Memory, root: nat, va: nat, pa: nat, n: nat, perm: nat)
    requires WellFormed(mem, root) && MapArgs(va, pa, n, perm)
    ensures var (m, r) := MapPages(mem, root, va, pa, n, perm);
            && WellFormed(m, root)
            && r == (if Mapped(mem, root, va, n, perm) == n then 0 else -1)
    decreases n
  {
    hide PageIndex, Separated, InteriorAt;
    if n == 0 {
    } else if HasTable(mem, root, va) {
      var w := LeafEntry(pa, perm);
      LeafWriteWellFormed(mem, root, va, w);
      var m := SetEntry(mem, Frame(E3(mem, root, va)), PageIndex(va, 3), w);
      MappedFrame(mem, m, root, va, w, va + 4096, n - 1, perm);
      MapResult(m, root, va + 4096, pa + 4096, n - 1, perm);
    } else if !Present(perm) {
      MapResult(mem, root, va + 4096, pa + 4096, n - 1, perm);
    }
  }

  lemma {:induction false} MappedFrame(mem: Memory, m: Memory, root: nat, a: Va, w: Word, va: nat, n: nat, perm: nat)
    requires WellFormed(mem, root) && Present(E3(mem, root, a))
    requires Frame(E3(mem, root, a)) < 512 && m == SetEntry(mem, Frame(E3(mem, root, a)), PageIndex(a, 3), w)
    requires va % 4096 == 0 && va + n * 4096 <= 0x1_0000_0000_0000 && perm < 4096
    ensures Mapped(m, root, va, n, perm) == Mapped(mem, root, va, n, perm)
    decreases n
  {
    hide PageIndex;
    if n > 0 {
      LeafWriteUpper(mem, root, a, va, w);
      MappedFrame(mem, m, root, a, w, va + 4096, n - 1, perm);
    }
  }

  /** vm.c:148-187. The asserts on each level are the precondition `LevelOk`;
      -1 stands for NULL. */
  predicate LevelOk(e: Word, perm: nat)
    requires perm < 4096
  {
    Present(e) ==> && Frame(e) < 512
                   && (Writable(perm) ==> Writable(e))
                   && (UserOk(perm) ==> UserOk(e))
  }

  method LookupL4Pagetable(mem: array<Page>, root: nat, va: Va, perm: nat) returns (l4: int)
    requires mem.Length == 512 && root < 512 && perm < 4096
    requires LevelOk(E1(mem[..], root, va), perm)
    requires LevelOk(E2(mem[..], root, va), perm)
    requires LevelOk(E3(mem[..], root, va), perm)
    ensures l4 == if HasTable(mem[..], root, va) then Frame(E3(mem[..], root, va)) else -1
  {
    var pt := root;
    ghost var m: Memory := mem[..];
    for i := 0 to 3
      invariant i == 0 ==> pt == root
      invariant i == 1 ==> Present(E1(m, root, va)) && pt == Frame(E1(m, root, va))
      invariant i == 2 ==> Present(E2(m, root, va)) && pt == Frame(E2(m, root, va))
      invariant i == 3 ==> Present(E3(m, root, va)) && pt == Frame(E3(m, root, va))
    {
      var pe := mem[pt][PageIndex(va, i)];
      if !Present(pe) {
        return -1;
      }
      pt := Frame(pe);
    }
    return pt;
  }

  lemma LevelsOk(mem: Memory, root: nat, va: Va, perm: nat)
    requires WellFormed(mem, root) && perm < 4096
    ensures LevelOk(E1(mem, root, va), perm) && LevelOk(E2(mem, root, va), perm) && LevelOk(E3(mem, root, va), perm)
  {
    assert InteriorAt(mem, root, va);
  }

  /** `l4` is the last-level table (or -1) of every address of the 2 MB region. */
  ghost predicate CacheOk(mem: Memory, root: nat, region: int, l4: int) {
    forall b: Va :: b / 0x20_0000 == region ==> l4 == L4Table(mem, root, b)
  }

  function L4Table(mem: Memory, root: nat, va: Va): int {
    if HasTable(mem, root, va) then Frame(E3(mem, root, va)) else -1
  }

  lemma FillCache(mem: Memory, root: nat, va: Va)
    ensures CacheOk(mem, root, va / 0x20_0000, L4Table(mem, root, va))
  {
    forall b: Va | b / 0x20_0000 == va / 0x20_0000 {
      SameRegion(mem, root, va, b);
    }
  }

  /** A last-level write leaves every cached table valid. */
  lemma CacheSurvives(mem: Memory, root: nat, va: Va, w: Word, region: int, l4: int)
    requires WellFormed(mem, root) && HasTable(mem, root, va) && CacheOk(mem, root, region, l4)
    ensures Frame(E3(mem, root, va)) < 512
    ensures CacheOk(SetEntry(mem, Frame(E3(mem, root, va)), PageIndex(va, 3), w), root, region, l4)
  {
    LeafWriteUpper(mem, root, va, va, w);
    var m := SetEntry(mem, Frame(E3(mem, root, va)), PageIndex(va, 3), w);
    forall b: Va | b / 0x20_0000 == region
      ensures l4 == L4Table(m, root, b)
    {
      LeafWriteUpper(mem, root, va, b, w);
      assert l4 == L4Table(mem, root, b);
    }
  }

  /** vm.c:98-140, with the last-level table cached across pages of one 2 MB
      region, refines the walk-every-page form. */
  method VirtualMemoryMap(mem: array<Page>, root: nat, va: nat, pa: nat, sz: nat, perm: nat) returns (r: int)
    requires mem.Length == 512 && WellFormed(mem[..], root)
    requires sz % 4096 == 0 && MapArgs(va, pa, sz / 4096, perm)
    modifies mem
    ensures (mem[..], r) == MapPages(old(mem[..]), root, va, pa, sz / 4096, perm)
  {
    hide PageIndex, WellFormed, CacheOk, E3, LevelOk;
    var lastIndex123: int := -1;
    var l4: int := -1;
    var v: nat, p: nat, n: nat := va, pa, sz / 4096;
    ghost var m0: Memory := mem[..];
    while n != 0
      invariant MapArgs(v, p, n, perm)
      invariant WellFormed(mem[..], root)
      invariant MapPages(mem[..], root, v, p, n, perm) == MapPages(m0, root, va, pa, sz / 4096, perm)
      invariant lastIndex123 >= 0 ==> CacheOk(mem[..], root, lastIndex123, l4)
      decreases n
    {
      ghost var m: Memory := mem[..];
      RootInstalled(m, root);
      var curIndex123 := v / 0x20_0000;
      if curIndex123 != lastIndex123 {
        LevelsOk(m, root, v, perm);
        l4 := LookupL4Pagetable(mem, root, v, perm);
        lastIndex123 := curIndex123;
        FillCache(m, root, v);
      }
      CacheHit(m, root, v, l4);
      if l4 >= 0 {
        var w := LeafEntry(p, perm);
        LeafWriteWellFormed(m, root, v, w);
        CacheSurvives(m, root, v, w, lastIndex123, l4);
        mem[l4] := mem[l4][PageIndex(v, 3) := w];
        assert mem[..] == SetEntry(m, l4, PageIndex(v, 3), w);
      } else if Present(perm) {
        return -1;
      }
      v, p, n := v + 4096, p + 4096, n - 1;
    }
    return 0;
  }

  lemma RootInstalled(mem: Memory, root: nat)
    requires WellFormed(mem, root)
    ensures root < 512
  {
  }

  lemma CacheHit(mem: Memory, root: nat, va: Va, l4: int)
    requires CacheOk(mem, root, va / 0x20_0000, l4)
    ensures l4 == L4Table(mem, root, va)
  {
  }
}
