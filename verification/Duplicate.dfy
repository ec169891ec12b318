/** `duplicate_pagetable` (kernel.c:141-168): five fresh pages wired into a table
    that repeats the source below PROC_START_ADDR and maps nothing else. */
module Duplicate {
  import opened X86
  import opened Paging
  import opened Tables
  import opened Spaces
  import opened Alloc

  // ---------------------------------------------------------------- operation

  function Clear(mem: Memory, p: nat): Memory
    requires p < 512
  {
    mem[p := ZeroPage()]
  }

  function Wire(mem: Memory, t: Table): Memory
    requires t.Distinct()
  {
    var m1 := SetEntry(mem, t.l1, 0, Full(t.l2));
    var m2 := SetEntry(m1, t.l2, 0, Full(t.l3));
    var m3 := SetEntry(m2, t.l3, 0, Full(t.lo));
    SetEntry(m3, t.l3, 1, Full(t.hi))
  }

  /** The copy loop of kernel.c:160-164 from page `v` on. */
  function CopyLow(mem: Memory, src: nat, dst: nat, v: nat): (r: Result<Memory>)
    requires v <= 256
    decreases 256 - v
  {
    if v == 256 then
      Ok(mem)
    else
      var vam := Lookup(mem, src, v * 4096);
      var (m, _) :- MapPage(mem, dst, v * 4096, vam.pa, vam.perm);
      CopyLow(m, src, dst, v + 1)
  }

  /** Five calls of `alloc_page_process`; a page is 0 when memory ran out. */
  function AllocFive(info: Info, pid: int): (r: (Info, Table))
  {
    var (i1, l1) := AllocPage(info, pid);
    var (i2, l2) := AllocPage(i1, pid);
    var (i3, l3) := AllocPage(i2, pid);
    var (i4, lo) := AllocPage(i3, pid);
    var (i5, hi) := AllocPage(i4, pid);
    (i5, Table(l1, l2, l3, lo, hi))
  }

  function ClearFive(mem: Memory, t: Table): Memory
    requires t.l1 < 512 && t.l2 < 512 && t.l3 < 512 && t.lo < 512 && t.hi < 512
  {
    Clear(Clear(Clear(Clear(Clear(mem, t.l1), t.l2), t.l3), t.lo), t.hi)
  }

  /** The root of the new table, or 0 when fewer than five pages were free. The
      pages already taken are not given back, and the page at address 0 is cleared
      in place of a missing one. */
  function DuplicatePagetable(k: VM, src: nat, pid: int): (r: Result<(VM, nat)>)
  {
    AllocInstalled(k.info, pid);
    var (info, t) := AllocFive(k.info, pid);
    var mem := ClearFive(k.mem, t);
    if t.l1 != 0 && t.l2 != 0 && t.l3 != 0 && t.lo != 0 && t.hi != 0 then
      AllocDistinct(k.info, pid);
      var m :- CopyLow(Wire(mem, t), src, t.l1, 0);
      Ok((VM(m, info), t.l1))
    else
      Ok((VM(mem, info), 0))
  }

  // --------------------------------------------------------------- five pages

  function FreePages(info: Info): (s: set<nat>)
  {
    set p: nat | 1 <= p < 512 && info[p].refcount == 0
  }

  lemma AllocInstalled(info: Info, pid: int)
    ensures var t := AllocFive(info, pid).1;
            t.l1 < 512 && t.l2 < 512 && t.l3 < 512 && t.lo < 512 && t.hi < 512
  {
    hide FindFree;
  }

  /** One allocation takes the least free page, if there is one. */
  lemma AllocTakes(info: Info, pid: int)
    ensures var (i, p) := AllocPage(info, pid);
            && (p == 0 <==> FreePages(info) == {})
            && (p == 0 ==> i == info)
            && (p != 0 ==> && p < 512 && p in FreePages(info) && i == info[p := PageInfo(pid, 1)]
                           && FreePages(i) == FreePages(info) - {p} && |FreePages(i)| == |FreePages(info)| - 1
                           && forall x :: x in FreePages(info) ==> p <= x)
  {
    var (i, p) := AllocPage(info, pid);
    if p == 0 {
      assert forall x :: 1 <= x < 512 ==> info[x].refcount != 0;
    } else {
      assert p in FreePages(info);
      assert forall x :: x in FreePages(i) <==> x in FreePages(info) - {p};
      assert FreePages(i) == FreePages(info) - {p};
    }
  }

  lemma AllocDistinct(info: Info, pid: int)
    requires var t := AllocFive(info, pid).1; t.l1 != 0 && t.l2 != 0 && t.l3 != 0 && t.lo != 0 && t.hi != 0
    ensures var t := AllocFive(info, pid).1;
            0 < t.l1 < t.l2 < t.l3 < t.lo < t.hi < 512 && t.Distinct()
  {
    var (i1, l1) := AllocPage(info, pid);
    var (i2, l2) := AllocPage(i1, pid);
    var (i3, l3) := AllocPage(i2, pid);
    var (i4, lo) := AllocPage(i3, pid);
    AllocTakes(info, pid);
    AllocTakes(i1, pid);
    AllocTakes(i2, pid);
    AllocTakes(i3, pid);
    AllocTakes(i4, pid);
    hide AllocPage, FreePages;
    assert l2 in FreePages(info) && l3 in FreePages(i1) && lo in FreePages(i2) && AllocPage(i4, pid).1 in FreePages(i3);
  }

  /** Only the records of the five pages change. */
  lemma AllocRecords(info: Info, pid: int)
    requires var t := AllocFive(info, pid).1; t.l1 != 0 && t.l2 != 0 && t.l3 != 0 && t.lo != 0 && t.hi != 0
    ensures var (i, t) := AllocFive(info, pid);
            forall x :: 0 <= x < 512 ==> i[x] == if t.Has(x) then PageInfo(pid, 1) else info[x]
  {
    AllocDistinct(info, pid);
    hide AllocPage;
    AllocOne(info, pid);
    var i1 := AllocPage(info, pid).0;
    AllocOne(i1, pid);
    var i2 := AllocPage(i1, pid).0;
    AllocOne(i2, pid);
    var i3 := AllocPage(i2, pid).0;
    AllocOne(i3, pid);
    AllocOne(AllocPage(i3, pid).0, pid);
  }

  lemma AllocOne(info: Info, pid: int)
    ensures var (i, p) := AllocPage(info, pid); p != 0 ==> p < 512 && i == info[p := PageInfo(pid, 1)]
  {
    hide FindFree;
  }

  /** The five pages are the five lowest free ones. */
  lemma AllocLowest(info: Info, pid: int)
    requires var t := AllocFive(info, pid).1; t.l1 != 0 && t.l2 != 0 && t.l3 != 0 && t.lo != 0 && t.hi != 0
    ensures var (i, t) := AllocFive(info, pid);
            && FreePages(i) == FreePages(info) - {t.l1, t.l2, t.l3, t.lo, t.hi}
            && |FreePages(i)| == |FreePages(info)| - 5
            && {t.l1, t.l2, t.l3, t.lo, t.hi} <= FreePages(info)
            && (forall x :: x in FreePages(info) && x <= t.hi ==> t.Has(x))
  {
    var (i1, l1) := AllocPage(info, pid);
    var (i2, l2) := AllocPage(i1, pid);
    var (i3, l3) := AllocPage(i2, pid);
    var (i4, lo) := AllocPage(i3, pid);
    var (i5, hi) := AllocPage(i4, pid);
    AllocDistinct(info, pid);
    hide AllocPage, FreePages;
    AllocTakes(info, pid);
    AllocTakes(i1, pid);
    AllocTakes(i2, pid);
    AllocTakes(i3, pid);
    AllocTakes(i4, pid);
    Peel(FreePages(info), FreePages(i1), FreePages(i2), FreePages(i3), FreePages(i4), Table(l1, l2, l3, lo, hi));
  }

  /** Taking the least element four times leaves a set whose least is the fifth. */
  lemma Peel(s0: set<nat>, s1: set<nat>, s2: set<nat>, s3: set<nat>, s4: set<nat>, t: Table)
    requires t.l1 in s0 && s1 == s0 - {t.l1} && t.l2 in s1 && s2 == s1 - {t.l2} && t.l3 in s2 && s3 == s2 - {t.l3}
    requires t.lo in s3 && s4 == s3 - {t.lo} && t.hi in s4 && forall x :: x in s4 ==> t.hi <= x
    ensures s4 - {t.hi} == s0 - {t.l1, t.l2, t.l3, t.lo, t.hi} && {t.l1, t.l2, t.l3, t.lo, t.hi} <= s0
    ensures forall x :: x in s0 && x <= t.hi ==> t.Has(x)
  {
    forall x | x in s0 && !t.Has(x) ensures t.hi < x {
      assert x in s4;
    }
  }

  /** Five pages are obtained exactly when five are free. */
  lemma AllocSucceeds(info: Info, pid: int)
    ensures var t := AllocFive(info, pid).1;
            |FreePages(info)| >= 5 <==> t.l1 != 0 && t.l2 != 0 && t.l3 != 0 && t.lo != 0 && t.hi != 0
  {
    var (i1, l1) := AllocPage(info, pid);
    var (i2, l2) := AllocPage(i1, pid);
    var (i3, l3) := AllocPage(i2, pid);
    var (i4, lo) := AllocPage(i3, pid);
    AllocTakes(info, pid);
    AllocTakes(i1, pid);
    AllocTakes(i2, pid);
    AllocTakes(i3, pid);
    AllocTakes(i4, pid);
    hide AllocPage, FreePages;
  }

  /** A nonzero root means five pages were free. */
  lemma FiveFree(k: VM, src: nat, pid: int)
    requires DuplicatePagetable(k, src, pid).Ok? && DuplicatePagetable(k, src, pid).value.1 != 0
    ensures |FreePages(k.info)| >= 5
  {
    AllocSucceeds(k.info, pid);
    hide AllocFive, FreePages, CopyLow, Wire, ClearFive;
  }

  // -------------------------------------------------------------- the new table

  ghost predicate Disjoint(s: Table, t: Table) {
    forall p :: t.Has(p) ==> !s.Has(p)
  }

  lemma WireWires(mem: Memory, t: Table)
    requires t.Distinct()
    ensures var m := Wire(ClearFive(mem, t), t);
            && Wired(m, t)
            && (forall v :: 0 <= v < 1024 ==> Slot(m, t, v) == 0)
            && (forall x :: 0 <= x < 512 && !t.Has(x) ==> m[x] == mem[x])
  {
  }

  /** A slot of the source as it arrives in the copy. */
  function Copied(e: Word): Word {
    if Present(e) then e else 0
  }

  predicate FramesInstalled(mem: Memory, t: Table) {
    forall v :: 0 <= v < 1024 && Present(Slot(mem, t, v)) ==> Frame(Slot(mem, t, v)) < 512
  }

  lemma CopyArgs(v: nat, f: nat, perm: nat)
    requires v < 1024 && f < 512 && perm < 4096
    ensures MapArgs(v * 4096, f * 4096, 1, perm)
    ensures Present(perm) ==> LeafEntry(f * 4096, perm) == f * 4096 + perm
    ensures MapArgs(v * 4096, UNMAPPED.pa, 1, 0) && LeafEntry(UNMAPPED.pa, 0) == 0
  {
  }

  lemma CopyEntry(e: Word, v: nat)
    requires v < 1024 && (Present(e) ==> Frame(e) < 512)
    ensures var vam := Decode(e, 0);
            MapArgs(v * 4096, vam.pa, 1, vam.perm) && LeafEntry(vam.pa, vam.perm) == Copied(e)
  {
    if Present(e) {
      assert e == Frame(e) * 4096 + PteFlags(e) && PteFlags(e) < 4096;
      hide ToInt32, Writable, UserOk, MapArgs, LeafEntry, Present, Frame, PteFlags;
      FlagsKeepBits(e);
      CopyArgs(v, Frame(e), PteFlags(e));
    } else {
      CopyArgs(v, 0, 0);
    }
  }

  /** Mapping what Lookup found reproduces the slot. */
  lemma Recopy(mem: Memory, s: Table, v: nat)
    requires Wired(mem, s) && v < 1024 && (Present(Slot(mem, s, v)) ==> Frame(Slot(mem, s, v)) < 512)
    ensures var vam := Lookup(mem, s.l1, v * 4096);
            && MapArgs(v * 4096, vam.pa, 1, vam.perm)
            && LeafEntry(vam.pa, vam.perm) == Copied(Slot(mem, s, v))
  {
    hide Lookup, Slot, Wired, MapArgs, LeafEntry, Copied, Decode;
    assert v * 4096 / 4096 == v && v * 4096 % 4096 == 0;
    LookupWired(mem, s, v * 4096);
    CopyEntry(Slot(mem, s, v), v);
  }

  /** One iteration of the copy loop. */
  lemma CopyStep(mem: Memory, s: Table, t: Table, v: nat) returns (m: Memory)
    requires v < 1024 && Wired(mem, s) && Wired(mem, t) && Disjoint(s, t) && FramesInstalled(mem, s)
    ensures var vam := Lookup(mem, s.l1, v * 4096);
            MapPage(mem, t.l1, v * 4096, vam.pa, vam.perm) == Ok((m, 0))
    ensures Wired(m, s) && Wired(m, t) && FramesInstalled(m, s)
    ensures forall u :: 0 <= u < 1024 ==> Slot(m, s, u) == Slot(mem, s, u)
    ensures forall u :: 0 <= u < 1024 ==> Slot(m, t, u) == if u == v then Copied(Slot(mem, s, v)) else Slot(mem, t, u)
    ensures forall x :: 0 <= x < 512 && x != t.lo && x != t.hi ==> m[x] == mem[x]
  {
    var vam := Lookup(mem, s.l1, v * 4096);
    var e := Copied(Slot(mem, s, v));
    assert t.Distinct() && t.Has(t.lo) && t.Has(t.hi);
    m := WriteSlot(mem, t, v, e);
    hide Lookup, MapPage, WriteSlot, MapArgs, LeafEntry, Copied, Wired;
    Recopy(mem, s, v);
    MapPageWired(mem, t, v, vam.pa, vam.perm);
    WriteSlotKeeps(mem, t, v, e);
    TableFrame(mem, m, s);
  }

  lemma {:induction false} CopyLowMeaning(mem: Memory, s: Table, t: Table, v: nat)
    requires v <= 256 && Wired(mem, s) && Wired(mem, t) && Disjoint(s, t) && FramesInstalled(mem, s)
    ensures CopyLow(mem, s.l1, t.l1, v).Ok?
    ensures var m := CopyLow(mem, s.l1, t.l1, v).value;
            && Wired(m, t)
            && (forall u :: 0 <= u < 1024 ==>
              Slot(m, t, u) == if v <= u < 256 then Copied(Slot(mem, s, u)) else Slot(mem, t, u))
            && (forall x :: 0 <= x < 512 && x != t.lo && x != t.hi ==> m[x] == mem[x])
    decreases 256 - v
  {
    hide Lookup, MapPage, Slot, Copied, Wired, FramesInstalled, Disjoint;
    if v < 256 {
      var m := CopyStep(mem, s, t, v);
      CopyLowMeaning(m, s, t, v + 1);
    }
  }

  /** What duplicate_pagetable leaves behind for a source whose own pages are in
      use: the state apart from the new table, and the new table's slots. */
  ghost predicate Duplicated(k: VM, k': VM, s: Table, t: Table, pid: int) {
    && Wired(k'.mem, t)
    && (forall v :: 0 <= v < 1024 ==> Slot(k'.mem, t, v) == if v < 256 then Copied(Slot(k.mem, s, v)) else 0)
    && (forall x :: 0 <= x < 512 && !t.Has(x) ==> k'.mem[x] == k.mem[x])
    && (forall x :: 0 <= x < 512 ==> k'.info[x] == if t.Has(x) then PageInfo(pid, 1) else k.info[x])
    && (forall x :: t.Has(x) ==> 0 < x < 512 && k.info[x].refcount == 0)
  }

  predicate InUse(info: Info, s: Table) {
    && s.Distinct()
    && info[s.l1].refcount != 0 && info[s.l2].refcount != 0 && info[s.l3].refcount != 0
    && info[s.lo].refcount != 0 && info[s.hi].refcount != 0
  }

  /** With five pages free, the allocations give five distinct free pages. */
  lemma AllocGood(info: Info, pid: int, i: Info, t: Table)
    requires |FreePages(info)| >= 5 && (i, t) == AllocFive(info, pid)
    ensures 0 < t.l1 < t.l2 < t.l3 < t.lo < t.hi < 512 && t.Distinct()
    ensures forall x :: 0 <= x < 512 ==> i[x] == if t.Has(x) then PageInfo(pid, 1) else info[x]
    ensures forall x :: t.Has(x) ==> 0 < x < 512 && info[x].refcount == 0
    ensures forall x :: 0 < x <= t.hi && info[x].refcount == 0 ==> t.Has(x)
  {
    AllocSucceeds(info, pid);
    AllocDistinct(info, pid);
    AllocRecords(info, pid);
    AllocLowest(info, pid);
    hide AllocFive;
    forall x | t.Has(x) ensures 0 < x < 512 && info[x].refcount == 0 {
      assert x in FreePages(info);
    }
    forall x | 0 < x <= t.hi && info[x].refcount == 0 ensures t.Has(x) {
      assert x in FreePages(info);
    }
  }

  lemma DuplicateForm(k: VM, s: Table, pid: int) returns (k': VM, t: Table)
    requires Wired(k.mem, s) && FramesInstalled(k.mem, s) && InUse(k.info, s)
    requires |FreePages(k.info)| >= 5
    ensures DuplicatePagetable(k, s.l1, pid) == Ok((k', t.l1))
    ensures (k'.info, t) == AllocFive(k.info, pid)
    ensures Duplicated(k, k', s, t, pid)
  {
    hide AllocFive, CopyLow, Wire, ClearFive, FreePages, Slot, Copied, Wired, FramesInstalled;
    var info := AllocFive(k.info, pid).0;
    t := AllocFive(k.info, pid).1;
    AllocGood(k.info, pid, info, t);
    assert Disjoint(s, t);
    hide Disjoint, InUse;
    var m := Wire(ClearFive(k.mem, t), t);
    WireWires(k.mem, t);
    WiredAgain(k.mem, m, s, t);
    CopyLowMeaning(m, s, t, 0);
    k' := VM(CopyLow(m, s.l1, t.l1, 0).value, info);
  }

  lemma WiredAgain(mem: Memory, m: Memory, s: Table, t: Table)
    requires Wired(mem, s) && FramesInstalled(mem, s) && Disjoint(s, t)
    requires forall x :: 0 <= x < 512 && !t.Has(x) ==> m[x] == mem[x]
    ensures Wired(m, s) && FramesInstalled(m, s)
    ensures forall v :: 0 <= v < 1024 ==> Slot(m, s, v) == Slot(mem, s, v)
  {
    assert s.Has(s.l1) && s.Has(s.l2) && s.Has(s.l3) && s.Has(s.lo) && s.Has(s.hi);
    TableFrame(mem, m, s);
  }

  lemma DuplicatedLookup(k: VM, k': VM, s: Table, t: Table, pid: int, a: Va)
    requires Wired(k.mem, s) && Wired(k'.mem, s) && Duplicated(k, k', s, t, pid)
    requires forall v :: 0 <= v < 1024 ==> Slot(k'.mem, s, v) == Slot(k.mem, s, v)
    ensures Lookup(k'.mem, t.l1, a) == if a < PROC_START_ADDR then Lookup(k.mem, s.l1, a) else UNMAPPED
    ensures Lookup(k'.mem, s.l1, a) == Lookup(k.mem, s.l1, a)
  {
    hide Wired, Slot, Lookup;
    LookupWired(k'.mem, t, a);
    LookupWired(k'.mem, s, a);
    LookupWired(k.mem, s, a);
  }

  /** Fresh-table meaning, in terms of lookups: equal to the source below
      PROC_START_ADDR, unmapped at every other 48-bit address, built from the five
      lowest free pages, and the source's own lookups are unchanged. */
  lemma FreshTableMeaning(k: VM, s: Table, pid: int) returns (k': VM, t: Table)
    requires Wired(k.mem, s) && FramesInstalled(k.mem, s) && InUse(k.info, s)
    requires |FreePages(k.info)| >= 5
    ensures DuplicatePagetable(k, s.l1, pid) == Ok((k', t.l1))
    ensures forall a: Va :: Lookup(k'.mem, t.l1, a) == if a < PROC_START_ADDR then Lookup(k.mem, s.l1, a) else UNMAPPED
    ensures forall a: Va :: Lookup(k'.mem, s.l1, a) == Lookup(k.mem, s.l1, a)
    ensures 0 < t.l1 < t.l2 < t.l3 < t.lo < t.hi < 512
    ensures forall x :: 0 < x <= t.hi ==> (t.Has(x) <==> k.info[x].refcount == 0)
    ensures forall x :: 0 <= x < 512 ==> k'.info[x] == if t.Has(x) then PageInfo(pid, 1) else k.info[x]
  {
    hide Wired, Slot, DuplicatePagetable, AllocFive, FreePages, Lookup, FramesInstalled;
    k', t := DuplicateForm(k, s, pid);
    AllocGood(k.info, pid, k'.info, t);
    assert Disjoint(s, t);
    hide Disjoint;
    WiredAgain(k.mem, k'.mem, s, t);
    forall a: Va {
      DuplicatedLookup(k, k', s, t, pid, a);
    }
  }

  // ----------------------------------------------------------- a new live space

  function RolesWithTable(role: Roles, t: Table, pid: int): Roles
    requires t.Distinct()
  {
    role[t.l1 := TablePage(pid, 0)][t.l2 := TablePage(pid, 1)][t.l3 := TablePage(pid, 2)]
      [t.lo := TablePage(pid, 3)][t.hi := TablePage(pid, 4)]
  }

  lemma SpacePage(lay: Layout, k: VM, k': VM, tabs: TableMap, role: Roles, t: Table, pid: int, s: Table, pn: nat)
    requires Inv(lay, k, tabs, role) && pid !in tabs && pn < 512
    requires Duplicated(k, k', s, t, pid) && SlotsSame(lay, k.mem, k'.mem, tabs)
    ensures var tabs', role' := tabs[pid := t], RolesWithTable(role, t, pid);
            && PageOk(lay, k', tabs', role', pn)
            && (ExactAt(k, tabs, role, pn) ==> ExactAt(k', tabs', role', pn))
            && (OwnedAt(k, tabs, role, pn) ==> OwnedAt(k', tabs', role', pn))
  {
    hide Inv, Slot, Wired, RolesWithTable, SlotsSame, IsSystem, Duplicated, ExactAt, OwnedAt;
    DuplicatedAt(k, k', s, t, pid, pn);
    RolesTable(role, t, pid);
    if t.Has(pn) {
      FreeRole(lay, k, tabs, role, pn);
      assert t.Nth(0) == t.l1 && t.Nth(1) == t.l2 && t.Nth(2) == t.l3 && t.Nth(3) == t.lo && t.Nth(4) == t.hi;
      NewPage(k', tabs[pid := t], RolesWithTable(role, t, pid), t, pid, pn);
    } else {
      hide PageOk;
      PageIsOk(lay, k, tabs, role, pn);
      SlotsKept(lay, k.mem, k'.mem, tabs);
      OldPage(lay, k, k', tabs, role, RolesWithTable(role, t, pid), t, pid, pn);
    }
  }

  lemma PageIsOk(lay: Layout, k: VM, tabs: TableMap, role: Roles, pn: nat)
    requires Inv(lay, k, tabs, role) && pn < 512
    ensures PageOk(lay, k, tabs, role, pn)
  {
  }

  lemma DuplicatedAt(k: VM, k': VM, s: Table, t: Table, pid: int, pn: nat)
    requires Duplicated(k, k', s, t, pid) && pn < 512
    ensures t.Distinct() && forall u :: 256 <= u < 1024 ==> Slot(k'.mem, t, u) == 0
    ensures t.Has(pn) ==> k.info[pn].refcount == 0 && k'.info[pn] == PageInfo(pid, 1)
    ensures !t.Has(pn) ==> k'.info[pn] == k.info[pn]
  {
    hide Slot;
  }

  lemma NewPage(k: VM, tabs: TableMap, role: Roles, t: Table, pid: int, pn: nat)
    requires pn < 512 && t.Has(pn) && pid in tabs && tabs[pid] == t && role[pn].TablePage?
    ensures ExactAt(k, tabs, role, pn) && OwnedAt(k, tabs, role, pn)
  {
  }

  lemma OldPage(lay: Layout, k: VM, k': VM, tabs: TableMap, role: Roles, role': Roles, t: Table, pid: int, pn: nat)
    requires pid !in tabs && pn < 512 && PageOk(lay, k, tabs, role, pn) && role'[pn] == role[pn]
             && k'.info[pn] == k.info[pn]
    requires forall u :: 256 <= u < 1024 ==> Slot(k'.mem, t, u) == 0
    requires forall q, u :: q in tabs && 0 <= u < 1024 ==> Slot(k'.mem, tabs[q], u) == Slot(k.mem, tabs[q], u)
    ensures PageOk(lay, k', tabs[pid := t], role', pn)
    ensures ExactAt(k, tabs, role, pn) ==> ExactAt(k', tabs[pid := t], role', pn)
    ensures OwnedAt(k, tabs, role, pn) ==> OwnedAt(k', tabs[pid := t], role', pn)
  {
    hide Slot, Sharers, IsSystem, InitInfo, Full;
    if role[pn].Shared? {
      SharersSame(k.mem, k'.mem, tabs, t, pid, pn, role[pn].home);
    }
  }

  lemma SlotsKept(lay: Layout, mem: Memory, m: Memory, tabs: TableMap)
    requires SlotsSame(lay, mem, m, tabs)
    ensures forall q, u :: q in tabs && 0 <= u < 1024 ==> Slot(m, tabs[q], u) == Slot(mem, tabs[q], u)
  {
  }

  lemma SharersSame(mem: Memory, m: Memory, tabs: TableMap, t: Table, pid: int, pn: nat, u: nat)
    requires pid !in tabs && pn < 512 && u < 1024 && Slot(m, t, u) == 0
    requires forall q :: q in tabs ==> Slot(m, tabs[q], u) == Slot(mem, tabs[q], u)
    ensures Sharers(m, tabs[pid := t], pn, u) == Sharers(mem, tabs, pn, u)
  {
    var a, b := Sharers(m, tabs[pid := t], pn, u), Sharers(mem, tabs, pn, u);
    forall q ensures q in a <==> q in b {
      if q in tabs {
        assert Shares(m, tabs[pid := t][q], pn, u) <==> Shares(mem, tabs[q], pn, u);
      }
    }
  }

  /** A process with a duplicated table and nothing in its user range joins the
      live processes. */
  lemma JoinSpace(lay: Layout, k: VM, k': VM, tabs: TableMap, role: Roles, s: Table, t: Table, pid: int)
    requires Inv(lay, k, tabs, role) && pid !in tabs && 1 <= pid < 16
    requires Duplicated(k, k', s, t, pid)
    requires forall v :: 0 <= v < 256 ==> Slot(k.mem, s, v) == LowEntry(v)
    ensures var tabs', role' := tabs[pid := t], RolesWithTable(role, t, pid);
            && Inv(lay, k', tabs', role')
            && SlotsSame(lay, k.mem, k'.mem, tabs)
            && (Exact(k, tabs, role) ==> Exact(k', tabs', role'))
            && (Owned(k, tabs, role) ==> Owned(k', tabs', role'))
  {
    var tabs', role' := tabs[pid := t], RolesWithTable(role, t, pid);
    JoinFrame(lay, k, k', tabs, role, s, t, pid);
    JoinTables(lay, k, k', tabs, role, s, t, pid);
    hide PageOk, ExactAt, OwnedAt, Wired, Slot, RolesWithTable, SpacesOk, SlotsOk, KernelTableOk;
    forall pn | 0 <= pn < 512
      ensures PageOk(lay, k', tabs', role', pn)
      ensures ExactAt(k, tabs, role, pn) ==> ExactAt(k', tabs', role', pn)
      ensures OwnedAt(k, tabs, role, pn) ==> OwnedAt(k', tabs', role', pn)
    {
      SpacePage(lay, k, k', tabs, role, t, pid, s, pn);
    }
  }

  lemma JoinFrame(lay: Layout, k: VM, k': VM, tabs: TableMap, role: Roles, s: Table, t: Table, pid: int)
    requires Inv(lay, k, tabs, role) && Duplicated(k, k', s, t, pid)
    ensures SlotsSame(lay, k.mem, k'.mem, tabs)
    ensures forall x :: t.Has(x) ==> role[x] == Free
  {
    hide Wired, Slot, PageOk, KernelTableOk, SlotsSame;
    forall x | t.Has(x) ensures role[x] == Free && !IsSystem(lay, x) {
      FreeRole(lay, k, tabs, role, x);
    }
    forall x | 0 <= x < 512 && IsTableFrame(lay, role, x) ensures k'.mem[x] == k.mem[x] {
      if lay.KernelTable().Has(x) {
        SystemRole(lay, k, tabs, role, x) by { KernelPages(lay, k.mem, x); }
      }
    }
    DataFrame(lay, k, tabs, role, k'.mem);
  }

  lemma KernelPages(lay: Layout, mem: Memory, x: nat)
    requires KernelTableOk(lay, mem) && lay.KernelTable().Has(x)
    ensures x < 512 && IsSystem(lay, x)
  {
  }

  lemma JoinTables(lay: Layout, k: VM, k': VM, tabs: TableMap, role: Roles, s: Table, t: Table, pid: int)
    requires Inv(lay, k, tabs, role) && pid !in tabs && 1 <= pid < 16
    requires Duplicated(k, k', s, t, pid) && SlotsSame(lay, k.mem, k'.mem, tabs)
    requires forall x :: t.Has(x) ==> role[x] == Free
    requires forall v :: 0 <= v < 256 ==> Slot(k.mem, s, v) == LowEntry(v)
    ensures SpacesOk(k'.mem, tabs[pid := t], RolesWithTable(role, t, pid))
    ensures SlotsOk(k'.mem, tabs[pid := t], RolesWithTable(role, t, pid))
  {
    assert t.Distinct();
    hide Slot, Inv, Wired, KernelTableOk, RolesWithTable, SpaceOk, SlotOk, Duplicated, SlotsSame;
    var tabs', role' := tabs[pid := t], RolesWithTable(role, t, pid);
    RolesTable(role, t, pid);
    forall q | q in tabs' ensures SpaceOk(k'.mem, tabs', role', q) {
      JoinedSpace(lay, k, k', tabs, role, s, t, pid, q);
    }
    forall q, u | q in tabs' && 0 <= u < 1024 ensures SlotOk(k'.mem, tabs'[q], role', q, u) {
      JoinedSlot(lay, k, k', tabs, role, s, t, pid, q, u);
    }
  }

  lemma JoinedSpace(lay: Layout, k: VM, k': VM, tabs: TableMap, role: Roles, s: Table, t: Table, pid: int, q: int)
    requires Inv(lay, k, tabs, role) && pid !in tabs && 1 <= pid < 16 && q in tabs[pid := t]
    requires Duplicated(k, k', s, t, pid) && SlotsSame(lay, k.mem, k'.mem, tabs)
    requires forall x :: t.Has(x) ==> role[x] == Free
    ensures SpaceOk(k'.mem, tabs[pid := t], RolesWithTable(role, t, pid), q)
  {
    RolesTable(role, t, pid);
    if q in tabs {
      assert SpaceOk(k.mem, tabs, role, q);
    }
    hide Inv, Slot, Wired, KernelTableOk, RolesWithTable;
  }

  lemma JoinedSlot(lay: Layout, k: VM, k': VM, tabs: TableMap, role: Roles, s: Table, t: Table, pid: int, q: int,
                   u: nat)
    requires Inv(lay, k, tabs, role) && pid !in tabs && 1 <= pid < 16 && q in tabs[pid := t] && u < 1024
    requires Duplicated(k, k', s, t, pid) && SlotsSame(lay, k.mem, k'.mem, tabs)
    requires forall x :: t.Has(x) ==> role[x] == Free
    requires forall v :: 0 <= v < 256 ==> Slot(k.mem, s, v) == LowEntry(v)
    ensures SlotOk(k'.mem, tabs[pid := t][q], RolesWithTable(role, t, pid), q, u)
  {
    hide Full, ReadOnly, Frame, PteFlags, Present, Writable, UserOk;
    RolesTable(role, t, pid);
    if q in tabs {
      assert SlotOk(k.mem, tabs[q], role, q, u);
    } else if u < 256 {
      LowForm(u);
    }
    hide Inv, Slot, Wired, KernelTableOk, RolesWithTable, LowEntry;
  }

  lemma RolesTable(role: Roles, t: Table, pid: int)
    requires t.Distinct()
    ensures var r := RolesWithTable(role, t, pid);
            && (forall l: nat :: l < 5 ==> r[t.Nth(l)] == TablePage(pid, l))
            && (forall x :: 0 <= x < 512 && !t.Has(x) ==> r[x] == role[x])
            && (forall x :: t.Has(x) ==> r[x].TablePage? && r[x].pid == pid)
  {
  }
}
