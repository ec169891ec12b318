/** Allocation keeps the invariant: `sys_page_alloc_find_free` on every 48-bit
    page-aligned address, well-formed or not. */
module Alloc {
  import opened X86
  import opened Paging
  import opened Tables
  import opened Spaces

  lemma FreeRole(lay: Layout, k: VM, tabs: TableMap, role: Roles, f: nat)
    requires Inv(lay, k, tabs, role) && f < 512 && k.info[f].refcount == 0
    ensures role[f] == Free && !IsSystem(lay, f)
  {
    assert PageOk(lay, k, tabs, role, f);
  }

  lemma SomeElement<T>(a: set<T>) returns (x: T)
    requires a != {}
    ensures x in a
  {
    x :| x in a;
  }

  lemma SubsetCard<T>(a: set<T>, b: set<T>)
    requires a <= b
    ensures |a| <= |b|
  {
    if x :| x in a {
      SubsetCard(a - {x}, b - {x});
    } else {
      assert a == {};
    }
  }

  /** Roles after page `f` is mapped writable at page `v` of `p`: whatever private
      page was there before is referenced by nothing any more. */
  function RolesAfterMap(mem: Memory, tabs: TableMap, role: Roles, p: int, v: nat, f: nat): Roles
    requires p in tabs && v < 1024 && f < 512
  {
    var e := Slot(mem, tabs[p], v);
    (if v >= 256 && MapsPrivate(e, role, p, v) then role[Frame(e) := Lost] else role)[f := Private(p, v)]
  }

  ghost predicate MappedFresh(lay: Layout, k: VM, k': VM, tabs: TableMap, p: int, v: nat, f: nat) {
    && f < 512 && k.info[f].refcount == 0
    && k'.info == k.info[f := PageInfo(p, 1)]
    && SlotUpdated(lay, k.mem, k'.mem, tabs, p, v, Full(f))
  }

  /** Slots other than the new one keep their role. */
  lemma FreshSlots(lay: Layout, k: VM, k': VM, tabs: TableMap, role: Roles, p: int, v: nat, f: nat)
    requires Inv(lay, k, tabs, role) && p in tabs && 256 <= v < 1024
    requires MappedFresh(lay, k, k', tabs, p, v, f)
    ensures SlotsOk(k'.mem, tabs, RolesAfterMap(k.mem, tabs, role, p, v, f))
  {
    hide Full, ReadOnly, Frame, PteFlags, Present, Writable, UserOk;
    var role' := RolesAfterMap(k.mem, tabs, role, p, v, f);
    FreeRole(lay, k, tabs, role, f);
    EntryForms(f);
    forall q, u | q in tabs && 0 <= u < 1024
      ensures SlotOk(k'.mem, tabs[q], role', q, u)
    {
      assert SlotOk(k.mem, tabs[q], role, q, u);
    }
  }

  lemma FreshPage(lay: Layout, k: VM, k': VM, tabs: TableMap, role: Roles, p: int, v: nat, f: nat, pn: nat)
    requires Inv(lay, k, tabs, role) && p in tabs && 256 <= v < 1024 && pn < 512
    requires MappedFresh(lay, k, k', tabs, p, v, f)
    ensures PageOk(lay, k', tabs, RolesAfterMap(k.mem, tabs, role, p, v, f), pn)
    ensures Slot(k.mem, tabs[p], v) == 0 && ExactAt(k, tabs, role, pn) ==>
              ExactAt(k', tabs, RolesAfterMap(k.mem, tabs, role, p, v, f), pn)
    ensures Slot(k.mem, tabs[p], v) == 0 && OwnedAt(k, tabs, role, pn) ==>
              OwnedAt(k', tabs, RolesAfterMap(k.mem, tabs, role, p, v, f), pn)
  {
    assert SpaceOk(k.mem, tabs, role, p);
    FreeRole(lay, k, tabs, role, f);
    EntryForms(f);
    EntryForms(pn);
    assert PageOk(lay, k, tabs, role, pn);
    assert SlotOk(k.mem, tabs[p], role, p, v);
    hide KernelTableOk, Wired, Slot, Sharers, IsSystem, InitInfo, Full, ReadOnly, SlotsOk, SpacesOk, PagesOk;
    if role[pn].Shared? {
      SharersFresh(lay, k.mem, k'.mem, tabs, p, v, f, pn, role[pn].home);
    }
  }

  /** Mapping a page writable creates no sharer. */
  lemma SharersFresh(lay: Layout, mem: Memory, m: Memory, tabs: TableMap, p: int, v: nat, f: nat, pn: nat, u: nat)
    requires p in tabs && v < 1024 && u < 1024 && f < 512 && pn < 512 && SlotUpdated(lay, mem, m, tabs, p, v, Full(f))
    ensures var before, after := Sharers(mem, tabs, pn, u), Sharers(m, tabs, pn, u);
            |after| <= |before| && (Slot(mem, tabs[p], v) == 0 ==> after == before)
  {
    EntryForms(f);
    EntryForms(pn);
    var before, after := Sharers(mem, tabs, pn, u), Sharers(m, tabs, pn, u);
    hide KernelTableOk, Wired, Slot;
    forall q | q in tabs
      ensures Shares(m, tabs[q], pn, u) ==> Shares(mem, tabs[q], pn, u)
      ensures Slot(mem, tabs[p], v) == 0 ==> (Shares(m, tabs[q], pn, u) <==> Shares(mem, tabs[q], pn, u))
    {
    }
    SubsetCard(after, before);
  }

  /** Mapping a free page keeps the invariant, and exactness too if the address
      was unmapped. */
  lemma MapFresh(lay: Layout, k: VM, k': VM, tabs: TableMap, role: Roles, p: int, v: nat, f: nat)
    requires Inv(lay, k, tabs, role) && p in tabs && 256 <= v < 1024
    requires MappedFresh(lay, k, k', tabs, p, v, f)
    ensures var role' := RolesAfterMap(k.mem, tabs, role, p, v, f);
            && Inv(lay, k', tabs, role')
            && (Slot(k.mem, tabs[p], v) == 0 && v < 768 && Exact(k, tabs, role) ==> Exact(k', tabs, role'))
            && (Slot(k.mem, tabs[p], v) == 0 && Owned(k, tabs, role) ==> Owned(k', tabs, role'))
  {
    var role' := RolesAfterMap(k.mem, tabs, role, p, v, f);
    hide PageOk, ExactAt, OwnedAt;
    FreshSlots(lay, k, k', tabs, role, p, v, f);
    forall pn | 0 <= pn < 512
      ensures PageOk(lay, k', tabs, role', pn)
      ensures Slot(k.mem, tabs[p], v) == 0 && ExactAt(k, tabs, role, pn) ==> ExactAt(k', tabs, role', pn)
      ensures Slot(k.mem, tabs[p], v) == 0 && OwnedAt(k, tabs, role, pn) ==> OwnedAt(k', tabs, role', pn)
    {
      FreshPage(lay, k, k', tabs, role, p, v, f, pn);
    }
    FreeRole(lay, k, tabs, role, f);
    forall q | q in tabs ensures SpaceOk(k'.mem, tabs, role', q) {
      assert SpaceOk(k.mem, tabs, role, q);
    }
  }

  /** A page taken for a request that maps nothing is lost but harmless. */
  lemma TakeLost(lay: Layout, k: VM, tabs: TableMap, role: Roles, p: int, f: nat)
    requires Inv(lay, k, tabs, role) && 0 <= p < 16 && f < 512 && k.info[f].refcount == 0
    ensures Inv(lay, VM(k.mem, k.info[f := PageInfo(p, 1)]), tabs, role[f := Lost])
  {
    var k', role' := VM(k.mem, k.info[f := PageInfo(p, 1)]), role[f := Lost];
    FreeRole(lay, k, tabs, role, f);
    forall pn | 0 <= pn < 512 ensures PageOk(lay, k', tabs, role', pn) {
      assert PageOk(lay, k, tabs, role, pn);
    }
    forall q | q in tabs ensures SpaceOk(k'.mem, tabs, role', q) {
      assert SpaceOk(k.mem, tabs, role, q);
    }
    forall q, u | q in tabs && 0 <= u < 1024 ensures SlotOk(k'.mem, tabs[q], role', q, u) {
      assert SlotOk(k.mem, tabs[q], role, q, u);
    }
  }

  /** A request page_alloc's documentation has in mind: page-aligned, in the user
      range, currently unmapped. */
  predicate GoodRequest(mem: Memory, t: Table, addr: Va) {
    && addr % 4096 == 0 && PROC_START_ADDR <= addr < MEMSIZE_VIRTUAL
    && Slot(mem, t, addr / 4096) == 0
  }

  /** Mapping the free page `f` user-writable at a page-aligned address. */
  lemma MapFreePage(mem: Memory, t: Table, addr: Va, f: nat)
    requires Wired(mem, t) && addr % 4096 == 0 && f < 512
    ensures MapPage(mem, t.l1, addr, f * 4096, 7)
         == Ok(if addr >= 0x40_0000 then (mem, -1) else (WriteSlot(mem, t, addr / 4096, Full(f)), 0))
  {
    EntryForms(f);
    WiredDistinct(mem, t);
    assert MapArgs(addr, f * 4096, 1, 7);
    assert LeafEntry(f * 4096, 7) == Full(f);
    hide MapPage, Wired, WriteSlot, LeafEntry, MapArgs;
    if addr >= 0x40_0000 {
      MapPageBeyond(mem, t, addr, f * 4096, 7);
    } else {
      assert addr / 4096 * 4096 == addr;
      MapPageWired(mem, t, addr / 4096, f * 4096, 7);
    }
  }

  /** What page_alloc does to a wired table when a page is free. */
  lemma PageAllocForm(k: VM, t: Table, p: int, addr: Va, f: nat, info: Info)
    requires Wired(k.mem, t) && (addr % 4096 == 0 || addr < PROC_START_ADDR)
    requires f == FindFree(k.info, 1) < 512 && info == k.info[f := PageInfo(p, 1)]
    ensures t.Distinct()
    ensures AllocAt(k, t.l1, p, addr)
         == Ok(if addr < PROC_START_ADDR then (VM(k.mem, info), -1)
               else if addr >= 0x40_0000 then (VM(k.mem, info), 0)
               else (VM(WriteSlot(k.mem, t, addr / 4096, Full(f)), info), 0))
  {
    WiredDistinct(k.mem, t);
    hide MapPage, Wired, WriteSlot, FindFree;
    if addr >= PROC_START_ADDR {
      MapFreePage(k.mem, t, addr, f);
    }
  }

  lemma WiredDistinct(mem: Memory, t: Table)
    requires Wired(mem, t)
    ensures t.Distinct()
  {
  }

  /** Every page_alloc whose address passes the alignment assert keeps the
      invariant; a good request keeps exactness as well, and when it succeeds maps
      exactly the least free page at exactly that address. */
  lemma PageAllocKeeps(lay: Layout, k: VM, tabs: TableMap, role: Roles, p: int, addr: Va) returns (role': Roles)
    requires Inv(lay, k, tabs, role) && p in tabs
    requires addr % 4096 == 0 || addr < PROC_START_ADDR
    ensures AllocAt(k, tabs[p].l1, p, addr).Ok?
    ensures var (k', r) := AllocAt(k, tabs[p].l1, p, addr).value;
            && Inv(lay, k', tabs, role')
            && (GoodRequest(k.mem, tabs[p], addr) && Exact(k, tabs, role) ==> Exact(k', tabs, role'))
            && (GoodRequest(k.mem, tabs[p], addr) && Owned(k, tabs, role) ==> Owned(k', tabs, role'))
            && (GoodRequest(k.mem, tabs[p], addr) && r == 0 ==>
                  MappedFresh(lay, k, k', tabs, p, addr / 4096, FindFree(k.info, 1)))
  {
    var f := FindFree(k.info, 1);
    assert SpaceOk(k.mem, tabs, role, p);
    if f == 512 {
      return role;
    }
    PageAllocForm(k, tabs[p], p, addr, f, k.info[f := PageInfo(p, 1)]);
    hide Inv, Exact, Owned, SlotUpdated, AllocAt, Wired, WriteSlot, FindFree, Slot;
    if addr < PROC_START_ADDR || addr >= 0x40_0000 {
      TakeLost(lay, k, tabs, role, p, f);
      return role[f := Lost];
    }
    var v := addr / 4096;
    SlotWrite(lay, k, tabs, role, p, v, Full(f));
    var k' := VM(WriteSlot(k.mem, tabs[p], v, Full(f)), k.info[f := PageInfo(p, 1)]);
    MapFresh(lay, k, k', tabs, role, p, v, f);
    return RolesAfterMap(k.mem, tabs, role, p, v, f);
  }
}
