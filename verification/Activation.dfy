/** `set_pagetable` (vm.c:60-72): what it asserts of a table before it becomes the
    active one, and why the tables of this kernel pass. */
module Activation {
  import opened X86
  import opened Paging
  import opened Tables
  import opened Spaces
  import opened Forks

  /** The asserts of set_pagetable for the table at `root`. Roots are page numbers,
      so they are page-aligned. */
  predicate SetPagetableOk(mem: Memory, lay: Layout, root: nat) {
    && lay.Valid() && root < 512
    && Lookup(mem, root, lay.handler).pa == lay.handler
    && Lookup(mem, lay.tables, root * 4096).pa == root * 4096
    && Lookup(mem, root, lay.tables * 4096).pa == lay.tables * 4096
    && Lookup(mem, root, lay.mapper).pa == lay.mapper
  }

  /** The first `n` pages of virtual memory are mapped to themselves. */
  predicate Identity(mem: Memory, t: Table, n: nat) {
    && Wired(mem, t) && n <= 1024
    && forall v :: 0 <= v < n ==> Present(Slot(mem, t, v)) && Frame(Slot(mem, t, v)) == v
  }

  lemma IdentityLookup(mem: Memory, t: Table, n: nat, a: Va)
    requires Identity(mem, t, n) && a / 4096 < n
    ensures t.l1 < 512 && Lookup(mem, t.l1, a).pa == a
  {
    hide Wired, Slot, Lookup, Present, Frame, PteFlags;
    var v := a / 4096;
    assert Present(Slot(mem, t, v)) && Frame(Slot(mem, t, v)) == v;
    LookupWired(mem, t, a);
    IdentityRoot(mem, t, n);
  }

  lemma IdentityRoot(mem: Memory, t: Table, n: nat)
    requires Identity(mem, t, n)
    ensures t.l1 < 512
  {
  }

  /** Tables that map the kernel's part to itself pass, once the kernel's own table
      maps all of physical memory to itself. */
  lemma SetPagetableHolds(lay: Layout, mem: Memory, t: Table)
    requires lay.Valid() && Identity(mem, lay.KernelTable(), 512) && Identity(mem, t, 256)
    ensures SetPagetableOk(mem, lay, t.l1)
  {
    hide Identity, Lookup;
    IdentityLookup(mem, t, 256, lay.handler);
    IdentityLookup(mem, t, 256, lay.mapper);
    IdentityLookup(mem, t, 256, lay.tables * 4096);
    IdentityLookup(mem, lay.KernelTable(), 512, t.l1 * 4096);
  }

  lemma KernelIdentity(lay: Layout, mem: Memory)
    requires KernelTableOk(lay, mem)
    ensures lay.Valid() && Identity(mem, lay.KernelTable(), 512) && Identity(mem, lay.KernelTable(), 256)
  {
    hide Full, ReadOnly, Frame, PteFlags, Present, Writable, UserOk;
    var t := lay.KernelTable();
    assert Wired(mem, t);
    hide Wired, Slot;
    forall v | 0 <= v < 512 ensures Present(Slot(mem, t, v)) && Frame(Slot(mem, t, v)) == v {
      LowForm(v);
      EntryForms(v);
    }
  }

  lemma LowEntriesIdentity(mem: Memory, t: Table)
    requires Wired(mem, t) && forall v :: 0 <= v < 256 ==> Slot(mem, t, v) == LowEntry(v)
    ensures Identity(mem, t, 256)
  {
    hide Full, ReadOnly, Writable, UserOk;
    hide Wired, Slot, LowEntry, Present, Frame, PteFlags;
    forall v | 0 <= v < 256 ensures Present(Slot(mem, t, v)) && Frame(Slot(mem, t, v)) == v {
      LowForm(v);
    }
  }

  /** The kernel's own table can be activated. */
  lemma KernelActivates(lay: Layout, mem: Memory)
    requires KernelTableOk(lay, mem)
    ensures lay.Valid() && SetPagetableOk(mem, lay, lay.tables)
  {
    hide KernelTableOk, Identity, SetPagetableOk;
    KernelIdentity(lay, mem);
    SetPagetableHolds(lay, mem, lay.KernelTable());
  }

  lemma LowActivates(lay: Layout, mem: Memory, t: Table)
    requires KernelTableOk(lay, mem) && Wired(mem, t) && forall v :: 0 <= v < 256 ==> Slot(mem, t, v) == LowEntry(v)
    ensures SetPagetableOk(mem, lay, t.l1)
  {
    hide KernelTableOk, Identity, SetPagetableOk, Wired, Slot, LowEntry;
    KernelIdentity(lay, mem);
    LowEntriesIdentity(mem, t);
    SetPagetableHolds(lay, mem, t);
  }

  /** And so can the table of every live process. */
  lemma LiveActivates(lay: Layout, k: VM, tabs: TableMap, role: Roles, p: int)
    requires Inv(lay, k, tabs, role) && p in tabs
    ensures SetPagetableOk(k.mem, lay, tabs[p].l1)
  {
    SourceOk(lay, k, tabs, role, p);
    assert KernelTableOk(lay, k.mem);
    hide Inv, KernelTableOk, SetPagetableOk, Wired, Slot;
    LowActivates(lay, k.mem, tabs[p]);
  }

  // ---------------------------------------------------------------- low lookups

  lemma LowLookup(mem: Memory, t: Table, a: Va)
    requires Wired(mem, t) && a < PROC_START_ADDR && Slot(mem, t, a / 4096) == LowEntry(a / 4096)
    ensures Lookup(mem, t.l1, a) == VaMapping(a / 4096, a, if a / 4096 == 0xB8 then 7 else 3)
  {
    hide Full, ReadOnly, Writable, UserOk;
    hide Wired, Lookup, Slot, LowEntry, Present, Frame, PteFlags;
    LookupWired(mem, t, a);
    LowForm(a / 4096);
  }
}
