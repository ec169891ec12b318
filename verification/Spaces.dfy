/** Physical page records and process address spaces (kernel.c): the state that
    allocation, fork, exit and page_alloc change, and the invariant they keep. */
module Spaces {
  import opened X86
  import opened Paging
  import opened Tables

  const CONSOLE_ADDR := 0xB8000
  const PO_RESERVED := -1
  const PO_KERNEL := -2

  // -------------------------------------------------------------------- state

  datatype PageInfo = PageInfo(owner: int, refcount: int)

  type Info = s: seq<PageInfo> | |s| == 512 witness seq(512, _ => PageInfo(0, 0))

  /** The part of the machine that address spaces are made of. */
  datatype VM = VM(mem: Memory, info: Info)

  /** A failed `assert` stops the kernel. */
  datatype Result<+T> = Ok(value: T) | Panic {
    predicate IsFailure() {
      Panic?
    }

    function PropagateFailure<U>(): Result<U>
      requires Panic?
    {
      Panic
    }

    function Extract(): T
      requires Ok?
    {
      value
    }
  }

  /** Where the linker put the kernel: the first page of `kernel_pagetables`, and
      the addresses of `start_data`, `end` and the two functions that
      `set_pagetable` looks up. */
  datatype Layout = Layout(tables: nat, startData: nat, end: nat, handler: nat, mapper: nat) {
    predicate Valid() {
      && 64 <= tables && (tables + 5) * 4096 <= end <= 0xA0000
      && 0x40000 <= startData <= end
      && 0x40000 <= handler < end && 0x40000 <= mapper < end
    }

    function KernelTable(): Table {
      Table(tables, tables + 1, tables + 2, tables + 3, tables + 4)
    }
  }

  predicate IsReserved(pn: nat) {
    pn == 0 || 0xA0 <= pn < 0x100
  }

  predicate IsKernel(lay: Layout, pn: nat) {
    (64 <= pn && pn * 4096 < lay.end) || pn == 127
  }

  predicate IsSystem(lay: Layout, pn: nat) {
    IsReserved(pn) || IsKernel(lay, pn)
  }

  /** The record `pageinfo_init` gives a page (kernel.c:489-506). */
  function InitInfo(lay: Layout, pn: nat): PageInfo {
    if IsReserved(pn) then PageInfo(PO_RESERVED, 1)
    else if IsKernel(lay, pn) then PageInfo(PO_KERNEL, 1)
    else PageInfo(0, 0)
  }

  /** The entry every table holds below PROC_START_ADDR: identity, no user access
      except to the console. */
  function LowEntry(v: nat): Word
    requires v < 512
  {
    v * 4096 + if v == 0xB8 then 7 else 3
  }

  /** A present, user-accessible, read-only entry. */
  function ReadOnly(p: nat): Word
    requires p < 512
  {
    p * 4096 + 5
  }

  // --------------------------------------------------------------- operations

  /** The search loop of kernel.c:172-176: the least free page from `p` on. */
  function FindFree(info: Info, p: nat): (r: nat)
    requires p <= 512
    ensures p <= r <= 512
    ensures forall j :: p <= j < r ==> info[j].refcount != 0
    ensures r < 512 ==> info[r].refcount == 0
    decreases 512 - p
  {
    if p == 512 || info[p].refcount == 0 then p else FindFree(info, p + 1)
  }

  /** `alloc_page_process`; page 0 is the NULL it returns when memory is full. */
  function AllocPage(info: Info, pid: int): (r: (Info, nat))
  {
    var p := FindFree(info, 1);
    if p < 512 then (info[p := PageInfo(pid, 1)], p) else (info, 0)
  }

  predicate MapAsserts(mem: Memory, root: nat, va: nat, pa: nat, perm: nat) {
    && root < 512
    && MapArgs(va, pa, 1, perm)
    && LevelOk(E1(mem, root, va), perm) && LevelOk(E2(mem, root, va), perm) && LevelOk(E3(mem, root, va), perm)
  }

  /** `virtual_memory_map` of a single page, with its asserts. */
  function MapPage(mem: Memory, root: nat, va: nat, pa: nat, perm: nat): (r: Result<(Memory, int)>)
  {
    if MapAsserts(mem, root, va, pa, perm) then Ok(MapPages(mem, root, va, pa, 1, perm)) else Panic
  }

  /** `sys_page_alloc_find_free` (kernel.c:184-200) for a 48-bit address. */
  function AllocAt(k: VM, root: nat, pid: int, addr: Va): (r: Result<(VM, int)>)
  {
    var p := FindFree(k.info, 1);
    if p == 512 then
      Ok((k, -1))
    else
      var info := k.info[p := PageInfo(pid, 1)];
      if addr < PROC_START_ADDR then
        Ok((VM(k.mem, info), -1))
      else
        var (mem, _) :- MapPage(k.mem, root, addr, p * 4096, 7);
        Ok((VM(mem, info), 0))
  }

  // ---------------------------------------------------------------- invariant

  /** What a physical page is being used for. */
  datatype Role =
    | Free
    | System
    | TablePage(pid: int, level: nat)
    | Private(pid: int, vpn: nat)    // behind a writable mapping
    | Shared(home: nat)              // behind read-only mappings, all at page `home`
    | Lost                           // allocated, referenced by nothing

  type Roles = s: seq<Role> | |s| == 512 witness seq(512, _ => Free)

  /** The page tables of the live processes. */
  type TableMap = map<int, Table>

  predicate Shares(mem: Memory, t: Table, pn: nat, v: nat)
    requires pn < 512
  {
    v < 1024 && Slot(mem, t, v) == ReadOnly(pn)
  }

  function Sharers(mem: Memory, tabs: TableMap, pn: nat, v: nat): set<int>
    requires pn < 512
  {
    set p | p in tabs && Shares(mem, tabs[p], pn, v)
  }

  predicate PageOk(lay: Layout, k: VM, tabs: TableMap, role: Roles, pn: nat)
    requires pn < 512
  {
    var i := k.info[pn];
    match role[pn]
    case System => IsSystem(lay, pn) && i == InitInfo(lay, pn)
    case Free => !IsSystem(lay, pn) && i.refcount == 0
    case TablePage(p, l) => !IsSystem(lay, pn) && p in tabs && l < 5 && tabs[p].Nth(l) == pn && i == PageInfo(p, 1)
    case Private(p, v) => !IsSystem(lay, pn) && p in tabs && 256 <= v < 1024 && Slot(k.mem, tabs[p], v) == Full(pn)
                          && i == PageInfo(p, 1)
    case Shared(v) => !IsSystem(lay, pn) && 256 <= v < 768 && 1 <= i.refcount <= 127 && 0 <= i.owner < 16
                      && |Sharers(k.mem, tabs, pn, v)| <= i.refcount
    case Lost => !IsSystem(lay, pn) && 1 <= i.refcount <= 127 && 0 <= i.owner < 16
  }

  predicate SpaceOk(mem: Memory, tabs: TableMap, role: Roles, p: int)
    requires p in tabs
  {
    && 1 <= p < 16
    && Wired(mem, tabs[p])
    && (forall l :: 0 <= l < 5 ==> role[tabs[p].Nth(l)] == TablePage(p, l))
  }

  predicate SlotOk(mem: Memory, t: Table, role: Roles, p: int, v: nat)
    requires v < 1024
  {
    var e := Slot(mem, t, v);
    if v < 256 then e == LowEntry(v)
    else e == 0 || MapsPrivate(e, role, p, v) || MapsShared(e, role, v)
  }

  predicate MapsPrivate(e: Word, role: Roles, p: int, v: nat) {
    Frame(e) < 512 && e == Full(Frame(e)) && role[Frame(e)] == Private(p, v)
  }

  predicate MapsShared(e: Word, role: Roles, v: nat) {
    Frame(e) < 512 && e == ReadOnly(Frame(e)) && role[Frame(e)] == Shared(v)
  }

  /** The kernel's own table: identity over all physical memory. */
  predicate KernelTableOk(lay: Layout, mem: Memory) {
    && lay.Valid()
    && Wired(mem, lay.KernelTable())
    && forall v :: 0 <= v < 1024 ==>
         Slot(mem, lay.KernelTable(), v) == if v < 256 then LowEntry(v) else if v < 512 then Full(v) else 0
  }

  ghost predicate PagesOk(lay: Layout, k: VM, tabs: TableMap, role: Roles) {
    forall pn :: 0 <= pn < 512 ==> PageOk(lay, k, tabs, role, pn)
  }

  ghost predicate SpacesOk(mem: Memory, tabs: TableMap, role: Roles) {
    forall p :: p in tabs ==> SpaceOk(mem, tabs, role, p)
  }

  ghost predicate SlotsOk(mem: Memory, tabs: TableMap, role: Roles) {
    forall p, v :: p in tabs && 0 <= v < 1024 ==> SlotOk(mem, tabs[p], role, p, v)
  }

  /** The inductive invariant: `role` witnesses that the references to each page
      are of one kind and that its record accounts for them. */
  ghost predicate Inv(lay: Layout, k: VM, tabs: TableMap, role: Roles) {
    KernelTableOk(lay, k.mem) && PagesOk(lay, k, tabs, role) && SpacesOk(k.mem, tabs, role)
      && SlotsOk(k.mem, tabs, role)
  }

  /** Nothing is lost: counts are exact and nothing is mapped above the user range. */
  ghost predicate Exact(k: VM, tabs: TableMap, role: Roles) {
    && (forall pn :: 0 <= pn < 512 ==> ExactAt(k, tabs, role, pn))
    && (forall p, v :: p in tabs && 768 <= v < 1024 ==> Slot(k.mem, tabs[p], v) == 0)
  }

  ghost predicate ExactAt(k: VM, tabs: TableMap, role: Roles, pn: nat)
    requires pn < 512
  {
    && role[pn] != Lost
    && (role[pn].Shared? ==> |Sharers(k.mem, tabs, pn, role[pn].home)| == k.info[pn].refcount)
  }

  /** The owner on record of every shared page is one of its sharers. */
  ghost predicate Owned(k: VM, tabs: TableMap, role: Roles) {
    forall pn :: 0 <= pn < 512 ==> OwnedAt(k, tabs, role, pn)
  }

  ghost predicate OwnedAt(k: VM, tabs: TableMap, role: Roles, pn: nat)
    requires pn < 512
  {
    && role[pn] != Lost
    && (role[pn].Shared? ==> k.info[pn].owner in Sharers(k.mem, tabs, pn, role[pn].home))
  }

  // ------------------------------------------------------------- frame lemmas

  lemma EntryForms(p: nat)
    requires p < 512
    ensures Frame(Full(p)) == p && PteFlags(Full(p)) == 7 && Present(Full(p)) && Writable(Full(p)) && UserOk(Full(p))
    ensures Frame(ReadOnly(p)) == p && PteFlags(ReadOnly(p)) == 5
    ensures Present(ReadOnly(p)) && !Writable(ReadOnly(p)) && UserOk(ReadOnly(p))
  {
    Bits(Full(p), p * 512, 1, 1, 1);
    Bits(ReadOnly(p), p * 512, 1, 0, 1);
  }

  /** Entries for different pages or rights are different. */
  lemma EntriesDiffer(f: nat, x: nat)
    requires f < 512 && x < 512
    ensures Full(f) == Full(x) <==> f == x
    ensures ReadOnly(f) == ReadOnly(x) <==> f == x
    ensures Full(f) != ReadOnly(x) && ReadOnly(f) != Full(x) && Full(f) != 0 && ReadOnly(f) != 0 && Full(x) != 0
            && ReadOnly(x) != 0
  {
  }

  lemma LowForm(v: nat)
    requires v < 512
    ensures Present(LowEntry(v)) && Frame(LowEntry(v)) == v && Writable(LowEntry(v))
    ensures UserOk(LowEntry(v)) <==> v == 0xB8
    ensures PteFlags(LowEntry(v)) == if v == 0xB8 then 7 else 3
  {
    Bits(LowEntry(v), v * 512, 1, 1, Bit(v == 0xB8));
  }

  /** Mapping one page through a wired table writes that page's slot. */
  lemma MapPageWired(mem: Memory, t: Table, v: nat, pa: nat, perm: nat)
    requires Wired(mem, t) && v < 1024 && MapArgs(v * 4096, pa, 1, perm)
    ensures MapPage(mem, t.l1, v * 4096, pa, perm) == Ok((WriteSlot(mem, t, v, LeafEntry(pa, perm)), 0))
  {
    WiredWellFormed(mem, t);
    LevelsOk(mem, t.l1, v * 4096, perm);
    MapWired(mem, t, v, pa, perm);
    hide LevelOk, MapPages, WellFormed;
  }

  lemma MapPageBeyond(mem: Memory, t: Table, va: Va, pa: nat, perm: nat)
    requires Wired(mem, t) && va >= 0x40_0000 && MapArgs(va, pa, 1, perm)
    ensures MapPage(mem, t.l1, va, pa, perm) == Ok((mem, if Present(perm) then -1 else 0))
  {
    WiredWellFormed(mem, t);
    LevelsOk(mem, t.l1, va, perm);
    MapBeyond(mem, t, va, pa, perm);
    hide LevelOk, MapPages, WellFormed;
  }

  /** Tables of `tabs` and the kernel mean the same in `mem` and `m`, except that
      slot `v` of process `p` now holds `w`. */
  ghost predicate SlotUpdated(lay: Layout, mem: Memory, m: Memory, tabs: TableMap, p: int, v: nat, w: Word) {
    && KernelTableOk(lay, m)
    && (forall q :: q in tabs ==> Wired(m, tabs[q]))
    && (forall q, u :: q in tabs && 0 <= u < 1024 ==>
          Slot(m, tabs[q], u) == if q == p && u == v then w else Slot(mem, tabs[q], u))
  }

  /** ... or with no exception at all. */
  ghost predicate SlotsSame(lay: Layout, mem: Memory, m: Memory, tabs: TableMap) {
    && KernelTableOk(lay, m)
    && (forall q :: q in tabs ==> Wired(m, tabs[q]))
    && (forall q, u :: q in tabs && 0 <= u < 1024 ==> Slot(m, tabs[q], u) == Slot(mem, tabs[q], u))
  }

  /** Table pages hold tables; kernel pages hold the kernel's. */
  predicate IsTableFrame(lay: Layout, role: Roles, x: nat)
    requires x < 512
  {
    role[x].TablePage? || lay.KernelTable().Has(x)
  }

  lemma KernelTableFrame(lay: Layout, mem: Memory, m: Memory)
    requires KernelTableOk(lay, mem)
    requires forall x :: 0 <= x < 512 && lay.KernelTable().Has(x) ==> m[x] == mem[x]
    ensures KernelTableOk(lay, m)
  {
    TableFrame(mem, m, lay.KernelTable());
  }

  /** Writing pages that hold no table changes no mapping. */
  lemma DataFrame(lay: Layout, k: VM, tabs: TableMap, role: Roles, m: Memory)
    requires Inv(lay, k, tabs, role)
    requires forall x :: 0 <= x < 512 && IsTableFrame(lay, role, x) ==> m[x] == k.mem[x]
    ensures SlotsSame(lay, k.mem, m, tabs)
  {
    KernelTableFrame(lay, k.mem, m);
    forall q | q in tabs
      ensures Wired(m, tabs[q])
      ensures forall u :: 0 <= u < 1024 ==> Slot(m, tabs[q], u) == Slot(k.mem, tabs[q], u)
    {
      assert SpaceOk(k.mem, tabs, role, q);
      forall l | 0 <= l < 5 ensures m[tabs[q].Nth(l)] == k.mem[tabs[q].Nth(l)] {
        assert role[tabs[q].Nth(l)] == TablePage(q, l);
      }
      var t := tabs[q];
      assert t.Nth(0) == t.l1 && t.Nth(1) == t.l2 && t.Nth(2) == t.l3 && t.Nth(3) == t.lo && t.Nth(4) == t.hi;
      TableFrame(k.mem, m, t);
    }
  }

  lemma SystemRole(lay: Layout, k: VM, tabs: TableMap, role: Roles, x: nat)
    requires Inv(lay, k, tabs, role) && x < 512 && IsSystem(lay, x)
    ensures role[x] == System
  {
    assert PageOk(lay, k, tabs, role, x);
  }

  lemma RoleBounds(lay: Layout, k: VM, tabs: TableMap, role: Roles, x: nat)
    requires Inv(lay, k, tabs, role) && x < 512
    ensures role[x].Shared? ==> 256 <= role[x].home < 768
    ensures k.info[x].refcount == 0 <==> role[x] == Free
    ensures (role[x].TablePage? || role[x].Private?) ==> role[x].pid in tabs
  {
    assert PageOk(lay, k, tabs, role, x);
    hide Inv, Slot;
  }

  /** Writing a slot of one process changes that slot only, of all tables, and
      no page but that process's own table pages. */
  lemma SlotWrite(lay: Layout, k: VM, tabs: TableMap, role: Roles, p: int, v: nat, w: Word)
    requires Inv(lay, k, tabs, role) && p in tabs && v < 1024
    ensures Wired(k.mem, tabs[p])
    ensures var m := WriteSlot(k.mem, tabs[p], v, w);
            && SlotUpdated(lay, k.mem, m, tabs, p, v, w)
            && (forall x :: 0 <= x < 512 && !role[x].TablePage? ==> m[x] == k.mem[x])
  {
    assert SpaceOk(k.mem, tabs, role, p);
    var t := tabs[p];
    var m := WriteSlot(k.mem, t, v, w);
    WriteSlotKeeps(k.mem, t, v, w);
    assert t.Nth(3) == t.lo && t.Nth(4) == t.hi;
    assert role[t.lo] == TablePage(p, 3) && role[t.hi] == TablePage(p, 4);
    forall x | 0 <= x < 512 && lay.KernelTable().Has(x) ensures m[x] == k.mem[x] {
      SystemRole(lay, k, tabs, role, x);
    }
    KernelTableFrame(lay, k.mem, m);
    forall q | q in tabs && q != p
      ensures Wired(m, tabs[q])
      ensures forall u :: 0 <= u < 1024 ==> Slot(m, tabs[q], u) == Slot(k.mem, tabs[q], u)
    {
      OtherTable(k.mem, tabs, role, p, q, m);
    }
  }

  lemma OtherTable(mem: Memory, tabs: TableMap, role: Roles, p: int, q: int, m: Memory)
    requires p in tabs && q in tabs && p != q && SpaceOk(mem, tabs, role, p) && SpaceOk(mem, tabs, role, q)
    requires forall x :: 0 <= x < 512 && x != tabs[p].lo && x != tabs[p].hi ==> m[x] == mem[x]
    ensures Wired(m, tabs[q])
    ensures forall u :: 0 <= u < 1024 ==> Slot(m, tabs[q], u) == Slot(mem, tabs[q], u)
  {
    var t, s := tabs[p], tabs[q];
    assert t.Nth(3) == t.lo && t.Nth(4) == t.hi;
    assert s.Nth(0) == s.l1 && s.Nth(1) == s.l2 && s.Nth(2) == s.l3 && s.Nth(3) == s.lo && s.Nth(4) == s.hi;
    TableFrame(mem, m, s);
  }

  /** The pages of a live table are recorded as such. */
  lemma TableInUse(lay: Layout, k: VM, tabs: TableMap, role: Roles, p: int)
    requires Inv(lay, k, tabs, role) && p in tabs
    ensures tabs[p].Distinct()
    ensures forall x :: tabs[p].Has(x) ==> role[x].TablePage? && role[x].pid == p && k.info[x] == PageInfo(p, 1)
  {
    var t := tabs[p];
    assert SpaceOk(k.mem, tabs, role, p);
    assert t.Nth(0) == t.l1 && t.Nth(1) == t.l2 && t.Nth(2) == t.l3 && t.Nth(3) == t.lo && t.Nth(4) == t.hi;
    forall x | t.Has(x) ensures role[x].TablePage? && role[x].pid == p && k.info[x] == PageInfo(p, 1) {
      assert PageOk(lay, k, tabs, role, x);
    }
  }

  /** Writing data pages keeps the invariant and everything it counts. */
  lemma DataKeeps(lay: Layout, k: VM, tabs: TableMap, role: Roles, m: Memory)
    requires Inv(lay, k, tabs, role)
    requires forall x :: 0 <= x < 512 && IsTableFrame(lay, role, x) ==> m[x] == k.mem[x]
    ensures Inv(lay, VM(m, k.info), tabs, role) && SlotsSame(lay, k.mem, m, tabs)
    ensures Exact(k, tabs, role) ==> Exact(VM(m, k.info), tabs, role)
    ensures Owned(k, tabs, role) ==> Owned(VM(m, k.info), tabs, role)
  {
    DataFrame(lay, k, tabs, role, m);
    var k' := VM(m, k.info);
    hide KernelTableOk, Wired, Slot;
    forall pn | 0 <= pn < 512
      ensures PageOk(lay, k', tabs, role, pn)
      ensures ExactAt(k, tabs, role, pn) ==> ExactAt(k', tabs, role, pn)
      ensures OwnedAt(k, tabs, role, pn) ==> OwnedAt(k', tabs, role, pn)
    {
      assert PageOk(lay, k, tabs, role, pn);
      if role[pn].Shared? {
        SharersFrame(k.mem, m, tabs, pn, role[pn].home);
      }
    }
    forall q | q in tabs ensures SpaceOk(m, tabs, role, q) {
      assert SpaceOk(k.mem, tabs, role, q);
    }
    forall q, u | q in tabs && 0 <= u < 1024 ensures SlotOk(m, tabs[q], role, q, u) {
      assert SlotOk(k.mem, tabs[q], role, q, u);
    }
  }

  lemma SharersFrame(mem: Memory, m: Memory, tabs: TableMap, pn: nat, u: nat)
    requires pn < 512 && u < 1024
    requires forall q :: q in tabs ==> Slot(m, tabs[q], u) == Slot(mem, tabs[q], u)
    ensures Sharers(m, tabs, pn, u) == Sharers(mem, tabs, pn, u)
  {
    forall q | q in tabs ensures Shares(m, tabs[q], pn, u) == Shares(mem, tabs[q], pn, u) {
    }
  }
}
