/** The loops of k-loader.c on the kernel's arrays. */
module LoaderMachine {
  import opened X86
  import opened Paging
  import opened Tables
  import opened Spaces
  import opened Bytes
  import opened Duplicate
  import opened Forks
  import opened Activation
  import opened Machine
  import opened Loader
  import opened LoadProperties

  /** The allocation loop (k-loader.c:92-100). */
  method LoadPagesLoop(km: KernelMachine, root: nat, pid: int, va: nat, end: nat, ghost tabs: TableMap,
                       ghost role0: Roles)
    returns (r: int)
    requires km.Shape() && Inv(km.lay, km.Vm(), tabs, role0) && pid in tabs && tabs[pid].l1 == root
    requires va % 4096 == 0 && PROC_START_ADDR <= va && end <= MEMSIZE_VIRTUAL
    requires forall u :: va / 4096 <= u < 768 && u * 4096 < end ==> Slot(km.mem[..], tabs[pid], u) == 0
    modifies km.mem, km.pageinfo
    ensures LoadPages(old(km.Vm()), root, pid, va, end) == Ok((km.Vm(), r))
  {
    hide Inv, Slot, Wired, MapPage, FindFree, SlotUpdated, Exact, Owned;
    ghost var role := role0;
    ghost var t := tabs[pid];
    var addr := va;
    while addr < end
      invariant addr % 4096 == 0 && PROC_START_ADDR <= addr
      invariant Inv(km.lay, km.Vm(), tabs, role)
      invariant forall u :: addr / 4096 <= u < 768 && u * 4096 < end ==> Slot(km.mem[..], t, u) == 0
      invariant LoadPages(km.Vm(), root, pid, addr, end) == LoadPages(old(km.Vm()), root, pid, va, end)
      decreases end - addr
    {
      ghost var k, v := km.Vm(), addr / 4096;
      assert addr == v * 4096;
      LiveWired(km.lay, k, tabs, role, pid);
      var page := km.AllocPageProcess(pid);
      if page == 0 {
        return -1;
      }
      FormArgs(v, page);
      r := km.MapThrough(root, t, addr, page * 4096, 7);
      if r < 0 {
        return -1;
      }
      ghost var f := FindFree(k.info, 1);
      ghost var k1, role1 := LoadStep(km.lay, k, tabs, role, pid, v, f);
      role := role1;
      assert km.Vm() == k1;
      forall u | v + 1 <= u < 768 && u * 4096 < end ensures Slot(km.mem[..], t, u) == 0 {
        UpdatedElsewhere(km.lay, k.mem, k1.mem, tabs, pid, v, Full(f), u);
      }
      addr := addr + 4096;
    }
    return 0;
  }

  /** memcpy or memset through the process's table (k-loader.c:106-107). */
  method StoreBytesLoop(km: KernelMachine, root: nat, a: nat, bs: seq<Byte>, ghost tabs: TableMap, ghost role: Roles,
                        ghost p: int)
    requires km.Shape() && Inv(km.lay, km.Vm(), tabs, role) && p in tabs && tabs[p].l1 == root
             && a + |bs| <= 0x1_0000_0000_0000
    requires forall c :: a <= c < a + |bs| ==> WritableByte(km.mem[..], tabs[p], c)
    modifies km.mem
    ensures StoreBytes(old(km.mem[..]), root, a, bs) == Ok(km.mem[..])
    ensures Inv(km.lay, km.Vm(), tabs, role)
  {
    hide Inv, Slot, Wired, Lookup, PutByte, WritableByte, OnlyBytes, Exact, Owned, ByteAt, MappedByte;
    var i := 0;
    while i < |bs|
      invariant 0 <= i <= |bs|
      invariant Inv(km.lay, km.Vm(), tabs, role)
      invariant forall c :: a + i <= c < a + |bs| ==> WritableByte(km.mem[..], tabs[p], c)
      invariant StoreBytes(km.mem[..], root, a + i, bs[i..]) == StoreBytes(old(km.mem[..]), root, a, bs)
    {
      ghost var k := km.Vm();
      PrivateFrameOf(km.lay, k, tabs, role, p, a + i);
      LiveWired(km.lay, k, tabs, role, p);
      var vam := km.LookupMapped(root, tabs[p], a + i);
      var f := vam.pa / 4096;
      km.mem[f] := PutByte(km.mem[f], (a + i) % 4096, bs[i]);
      ghost var k1 := StoreByteStep(km.lay, k, tabs, role, p, a + i, bs[i]);
      assert km.Vm() == k1;
      forall c | a + i + 1 <= c < a + |bs| ensures WritableByte(k1.mem, tabs[p], c) {
        StillWritable(km.lay, k.mem, k1.mem, tabs, p, a + i, 1, c);
      }
      assert bs[i..][1..] == bs[i + 1..];
      i := i + 1;
    }
  }

  lemma PrivateFrameOf(lay: Layout, k: VM, tabs: TableMap, role: Roles, p: int, a: int)
    requires Inv(lay, k, tabs, role) && p in tabs && WritableByte(k.mem, tabs[p], a)
    ensures var vam, f := Lookup(k.mem, tabs[p].l1, a), Frame(Slot(k.mem, tabs[p], a / 4096));
            f < 512 && vam != UNMAPPED && vam.pa >= 0 && vam.pa / 4096 == f
  {
    hide Inv, Lookup, Slot, Frame;
    PrivateFrame(lay, k, tabs, role, p, a);
  }

  /** The downgrade loop (k-loader.c:108-111) for a read-only segment. */
  method MakeReadOnlyLoop(km: KernelMachine, root: nat, va: nat, end: nat, ghost tabs: TableMap, ghost role0: Roles,
                          ghost p: int)
    requires km.Shape() && Inv(km.lay, km.Vm(), tabs, role0) && p in tabs && tabs[p].l1 == root
    requires va % 4096 == 0 && PROC_START_ADDR <= va && end <= MEMSIZE_VIRTUAL
    requires forall u :: va / 4096 <= u < 768 && u * 4096 < end ==> FullSlot(km.mem[..], tabs[p], u)
    modifies km.mem
    ensures MakeReadOnly(old(km.mem[..]), root, va, end) == Ok(km.mem[..])
  {
    hide Inv, Slot, Wired, MapPage, Lookup, SlotUpdated, Exact, Owned, FullSlot, Frame, Full, ReadOnly;
    ghost var role := role0;
    ghost var t := tabs[p];
    var addr := va;
    while addr < end
      invariant addr % 4096 == 0 && PROC_START_ADDR <= addr
      invariant Inv(km.lay, km.Vm(), tabs, role)
      invariant forall u :: addr / 4096 <= u < 768 && u * 4096 < end ==> FullSlot(km.mem[..], t, u)
      invariant MakeReadOnly(km.mem[..], root, addr, end) == MakeReadOnly(old(km.mem[..]), root, va, end)
      decreases end - addr
    {
      ghost var k, v := km.Vm(), addr / 4096;
      assert addr == v * 4096;
      LiveWired(km.lay, k, tabs, role, p);
      ghost var f := Frame(Slot(k.mem, t, v));
      assert FullSlot(k.mem, t, v);
      FullSlotIs(k.mem, t, v);
      ghost var k1 := DowngradeStep(km.lay, k, tabs, role, p, v, f);
      DowngradeKeeps(km.lay, k, k1, tabs, role, p, v, f);
      FormArgs(v, f);
      var vam := km.LookupMapped(root, t, addr);
      var _ := km.MapThrough(root, t, addr, vam.pa, 5);
      assert km.Vm() == k1;
      role := role[f := Shared(v)];
      forall u | v + 1 <= u < 768 && u * 4096 < end ensures FullSlot(km.mem[..], t, u) {
        UpdatedElsewhere(km.lay, k.mem, k1.mem, tabs, p, v, ReadOnly(f), u);
        SameFullSlot(k.mem, k1.mem, t, u);
      }
      addr := addr + 4096;
    }
  }

  predicate FullSlot(mem: Memory, t: Table, u: nat) {
    u < 1024 && Frame(Slot(mem, t, u)) < 512 && Slot(mem, t, u) == Full(Frame(Slot(mem, t, u)))
  }

  lemma FullSlotIs(mem: Memory, t: Table, u: nat)
    requires FullSlot(mem, t, u)
    ensures u < 1024 && Frame(Slot(mem, t, u)) < 512 && Slot(mem, t, u) == Full(Frame(Slot(mem, t, u)))
  {
  }

  lemma SameFullSlot(mem: Memory, m: Memory, t: Table, u: nat)
    requires u < 1024 && FullSlot(mem, t, u) && Slot(m, t, u) == Slot(mem, t, u)
    ensures FullSlot(m, t, u)
  {
  }

  /** program_load_segment (k-loader.c:83-116). */
  method ProgramLoadSegment(km: KernelMachine, root: nat, pid: int, seg: Segment, ghost tabs: TableMap,
                            ghost role: Roles)
    returns (r: int)
    requires km.Shape() && Inv(km.lay, km.Vm(), tabs, role) && pid in tabs && tabs[pid].l1 == root
    requires GoodSegment(seg, MEMSIZE_VIRTUAL) && RoomFor(km.mem[..], tabs[pid], seg)
    modifies km.mem, km.pageinfo
    ensures LoadSegment(km.lay, old(km.Vm()), root, pid, seg) == Ok((km.Vm(), r))
  {
    hide Inv, Slot, LoadPages, StoreBytes, MakeReadOnly, Wired, Exact, Owned, Untouched, OnlyBytes, ByteAt,
         MappedByte, WritableByte, FullSlot, SetPagetableOk, WellFormed, SegmentLoaded, FreshFrames, SameElsewhere,
         DistinctFrames, InUseRecords, FreePages, SegmentPages;
    ghost var k := km.Vm();
    ghost var t := tabs[pid];
    var va := seg.va - seg.va % 4096;
    var endFile, endMem := seg.va + seg.filesz, seg.va + seg.memsz;
    RoomAt(k.mem, t, seg);
    ghost var k1, r1, role1 := AllocSegment(km.lay, k, tabs, role, pid, seg, MEMSIZE_VIRTUAL);
    r := LoadPagesLoop(km, root, pid, va, endMem, tabs, role);
    if r < 0 {
      return;
    }
    assert km.Vm() == k1;
    LiveActivates(km.lay, k1, tabs, role1, pid);
    TablesWellFormed(km.lay, k1, tabs, role1, pid);
    var active := km.SetPagetable(root);
    assert active;
    FullForFill(k.info, k1.mem, t, seg, MEMSIZE_VIRTUAL);
    ghost var k2, m1 := FillSegment(km.lay, k1, tabs, role1, pid, seg, MEMSIZE_VIRTUAL);
    SpanWritable(k1.mem, t, seg, MEMSIZE_VIRTUAL);
    StoreBytesLoop(km, root, va, seg.image[..endFile - va], tabs, role1, pid);
    assert seg.image[..endFile - va] == seg.image[..seg.filesz];
    assert km.mem[..] == m1;
    TailWritable(km.lay, k1, m1, tabs, role1, pid, seg);
    StoreBytesLoop(km, root, endFile, Zeros(endMem - endFile), tabs, role1, pid);
    assert km.Vm() == k2;
    if !seg.writable {
      FilledFull(km.lay, k.info, k1.mem, k2.mem, tabs, pid, seg);
      MakeReadOnlyLoop(km, root, va, endMem, tabs, role1, pid);
    }
    ghost var k3, r3, role3 := LoadSegmentMeaning(km.lay, k, tabs, role, pid, seg, MEMSIZE_VIRTUAL);
    assert km.Vm() == k3;
    KernelTableKept(km.lay, k3, tabs, role3);
    TablesWellFormed(km.lay, k3, tabs, role3, pid);
    active := km.SetPagetable(km.lay.tables);
    assert active;
  }

  lemma TablesWellFormed(lay: Layout, k: VM, tabs: TableMap, role: Roles, p: int)
    requires Inv(lay, k, tabs, role) && p in tabs
    ensures WellFormed(k.mem, lay.tables) && WellFormed(k.mem, tabs[p].l1)
  {
    LiveWired(lay, k, tabs, role, p);
    hide WellFormed, Wired;
    WiredWellFormed(k.mem, lay.KernelTable());
    WiredWellFormed(k.mem, tabs[p]);
  }

  /** program_load's loop over the loadable segments (k-loader.c:60-68). */
  method ProgramLoad(km: KernelMachine, root: nat, pid: int, segs: seq<Segment>, ghost tabs: TableMap,
                     ghost role0: Roles)
    returns (r: int)
    requires km.Shape() && Inv(km.lay, km.Vm(), tabs, role0) && pid in tabs && tabs[pid].l1 == root
    requires GoodProgram(segs, MEMSIZE_VIRTUAL) && RoomForAll(km.mem[..], tabs[pid], segs)
    modifies km.mem, km.pageinfo
    ensures (forall x :: x in segs ==> x.Readable())
            && LoadProgram(km.lay, old(km.Vm()), root, pid, segs) == Ok((km.Vm(), r))
  {
    hide Inv, Slot, Exact, Owned, LoadSegment, LoadProgram, GoodProgram, RoomForAll, GoodSegment, RoomFor,
         SegmentLoaded, FreshFrames, Untouched, SameElsewhere, FreePages, SegmentPages, Segment.Readable;
    AllReadable(segs, MEMSIZE_VIRTUAL);
    ghost var role, t := role0, tabs[pid];
    var i := 0;
    assert segs[0..] == segs;
    while i < |segs|
      invariant 0 <= i <= |segs|
      invariant Inv(km.lay, km.Vm(), tabs, role)
      invariant GoodProgram(segs[i..], MEMSIZE_VIRTUAL) && RoomForAll(km.mem[..], t, segs[i..])
      invariant LoadProgram(km.lay, km.Vm(), root, pid, segs[i..]) == LoadProgram(km.lay, old(km.Vm()), root, pid, segs)
    {
      ghost var k, todo := km.Vm(), segs[i..];
      assert todo[0] == segs[i] && todo[1..] == segs[i + 1..];
      FirstSegment(k.mem, t, todo, MEMSIZE_VIRTUAL);
      ghost var k1, r1, role1 := LoadSegmentMeaning(km.lay, k, tabs, role, pid, segs[i], MEMSIZE_VIRTUAL);
      r := ProgramLoadSegment(km, root, pid, segs[i], tabs, role);
      assert km.Vm() == k1 && r == r1;
      LoadNext(km.lay, k, root, pid, todo, k1, r);
      NoError(km.lay, k, root, pid, segs[i]);
      if r < 0 {
        return -1;
      }
      RestRoom(k.mem, k1.mem, t, todo, MEMSIZE_VIRTUAL);
      role := role1;
      i := i + 1;
    }
    assert segs[i..] == [];
    LoadEnd(km.lay, km.Vm(), root, pid);
    return 0;
  }

  lemma LoadNext(lay: Layout, k: VM, root: nat, pid: int, segs: seq<Segment>, k1: VM, r: int)
    requires segs != [] && (forall x :: x in segs ==> x.Readable())
             && LoadSegment(lay, k, root, pid, segs[0]) == Ok((k1, r))
    ensures LoadProgram(lay, k, root, pid, segs) == if r < 0 then Ok((k1, -1))
            else LoadProgram(lay, k1, root, pid, segs[1..])
  {
    hide LoadSegment;
  }

  lemma LoadEnd(lay: Layout, k: VM, root: nat, pid: int)
    ensures LoadProgram(lay, k, root, pid, []) == Ok((k, 0))
  {
  }

  lemma RoomAt(mem: Memory, t: Table, seg: Segment)
    requires GoodSegment(seg, MEMSIZE_VIRTUAL) && RoomFor(mem, t, seg)
    ensures forall u :: seg.va / 4096 <= u < 768 && u * 4096 < seg.va + seg.memsz ==> Slot(mem, t, u) == 0
  {
    hide Slot;
    forall u | seg.va / 4096 <= u < 768 && u * 4096 < seg.va + seg.memsz ensures Slot(mem, t, u) == 0 {
      assert OnPage(seg, u);
    }
  }

  lemma TailWritable(lay: Layout, k: VM, m: Memory, tabs: TableMap, role: Roles, p: int, seg: Segment)
    requires Inv(lay, k, tabs, role) && p in tabs && GoodSegment(seg, MEMSIZE_VIRTUAL)
    requires forall a :: seg.va <= a < seg.va + seg.memsz ==> WritableByte(k.mem, tabs[p], a)
    requires StoreBytes(k.mem, tabs[p].l1, seg.va, seg.image[..seg.filesz]) == Ok(m)
    ensures forall a :: seg.va + seg.filesz <= a < seg.va + seg.memsz ==> WritableByte(m, tabs[p], a)
  {
    hide Inv, Exact, Owned, StoreBytes, OnlyBytes, WritableByte, ByteAt, MappedByte;
    var k' := StoreBytesMeaning(lay, k, tabs, role, p, seg.va, seg.image[..seg.filesz]);
    forall a | seg.va + seg.filesz <= a < seg.va + seg.memsz ensures WritableByte(m, tabs[p], a) {
      StillWritable(lay, k.mem, k'.mem, tabs, p, seg.va, seg.filesz, a);
    }
  }

  lemma FilledFull(lay: Layout, info: Info, mem: Memory, m: Memory, tabs: TableMap, p: int, seg: Segment)
    requires GoodSegment(seg, MEMSIZE_VIRTUAL) && OnlyBytes(lay, mem, m, tabs, p, seg.va, seg.memsz)
    requires FullSlots(info, mem, tabs[p], seg)
    ensures forall u :: seg.va / 4096 <= u < 768 && u * 4096 < seg.va + seg.memsz ==> FullSlot(m, tabs[p], u)
  {
    PageSpan(seg, MEMSIZE_VIRTUAL);
    hide Slot, Wired, KernelTableOk, LastPage;
    forall u | seg.va / 4096 <= u < 768 && u * 4096 < seg.va + seg.memsz ensures FullSlot(m, tabs[p], u) {
      assert OnPage(seg, u);
      assert Slot(m, tabs[p], u) == Slot(mem, tabs[p], u);
    }
  }
}
