/** What a loaded program looks like to the process. */
module LoadProperties {
  import opened X86
  import opened Tables
  import opened Spaces
  import opened Bytes
  import opened Duplicate
  import opened Activation
  import opened Loader

  // --------------------------------------------------------------- statements

  /** Page-aligned and inside the user range, below `limit`. */
  predicate GoodSegment(seg: Segment, limit: nat) {
    && seg.Readable() && seg.va % 4096 == 0
    && PROC_START_ADDR <= seg.va && seg.va + seg.memsz <= limit <= MEMSIZE_VIRTUAL
  }

  /** The segment has bytes on user page `u`. */
  predicate OnPage(seg: Segment, u: nat) {
    seg.va <= u * 4096 < seg.va + seg.memsz
  }

  function ExpectedByte(seg: Segment, a: int): Byte
    requires seg.Readable() && seg.va % 4096 == 0 && seg.va <= a < seg.va + seg.memsz
  {
    if a < seg.va + seg.filesz then seg.image[a - seg.va] else 0
  }

  /** Every byte of the segment reads as the image says, with the permission the
      segment flag asks for. */
  ghost predicate SegmentLoaded(mem: Memory, t: Table, seg: Segment)
    requires seg.Readable() && seg.va % 4096 == 0
  {
    forall a :: seg.va <= a < seg.va + seg.memsz ==>
      && MappedByte(mem, t, a)
      && ByteAt(mem, t, a) == ExpectedByte(seg, a)
      && Slot(mem, t, a / 4096)
        == (if seg.writable then Full(Frame(Slot(mem, t, a / 4096))) else ReadOnly(Frame(Slot(mem, t, a / 4096))))
  }

  /** Mappings and bytes the process had are still there. */
  ghost predicate Untouched(mem: Memory, m: Memory, t: Table) {
    forall c :: MappedByte(mem, t, c) ==>
      && MappedByte(m, t, c) && ByteAt(m, t, c) == ByteAt(mem, t, c)
      && Slot(m, t, c / 4096) == Slot(mem, t, c / 4096)
  }

  /** The frames behind the segment were free in `info`. */
  ghost predicate FreshFrames(info: Info, mem: Memory, t: Table, seg: Segment) {
    forall u :: 256 <= u < 768 && OnPage(seg, u) ==>
      Frame(Slot(mem, t, u)) < 512 && info[Frame(Slot(mem, t, u))].refcount == 0
  }

  /** No two user pages of the process share a frame. */
  ghost predicate DistinctFrames(mem: Memory, t: Table) {
    forall u, v :: 256 <= u < v < 768 && Slot(mem, t, u) != 0 && Slot(mem, t, v) != 0 ==>
      Frame(Slot(mem, t, u)) != Frame(Slot(mem, t, v))
  }

  lemma FramesDistinct(lay: Layout, k: VM, tabs: TableMap, role: Roles, p: int)
    requires Inv(lay, k, tabs, role) && p in tabs
    ensures DistinctFrames(k.mem, tabs[p])
  {
    hide Slot;
    forall u, v | 256 <= u < v < 768 && Slot(k.mem, tabs[p], u) != 0 && Slot(k.mem, tabs[p], v) != 0
      ensures Frame(Slot(k.mem, tabs[p], u)) != Frame(Slot(k.mem, tabs[p], v))
    {
      assert SlotOk(k.mem, tabs[p], role, p, u) && SlotOk(k.mem, tabs[p], role, p, v);
    }
  }

  // ---------------------------------------------------------------- one segment

  function LastPage(seg: Segment): nat {
    if seg.memsz == 0 then seg.va / 4096 else (seg.va + seg.memsz + 4095) / 4096
  }

  /** How many pages the segment touches. */
  function SegmentPages(seg: Segment): nat {
    (seg.memsz + 4095) / 4096
  }

  lemma PageSpan(seg: Segment, limit: nat)
    requires GoodSegment(seg, limit)
    ensures var v, w := seg.va / 4096, LastPage(seg);
            && 256 <= v <= w <= 768 && v * 4096 == seg.va == seg.Base() && seg.va + seg.memsz <= 768 * 4096
            && w == (if v * 4096 >= seg.va + seg.memsz then v else (seg.va + seg.memsz + 4095) / 4096)
            && w - v == SegmentPages(seg)
            && (forall u: nat :: v <= u < w <==> OnPage(seg, u))
            && (forall a :: seg.va <= a < seg.va + seg.memsz ==> UserAddress(a) && v <= a / 4096 < w)
  {
  }

  /** Allocation leaves the bytes that were mapped before. */
  lemma ExtendedUntouched(lay: Layout, k: VM, k': VM, tabs: TableMap, role: Roles, p: int, v: nat, w: nat)
    requires Inv(lay, k, tabs, role) && p in tabs && 256 <= v <= w <= 768
    requires Extended(k, k', tabs[p], v, w) && forall u :: v <= u < w ==> Slot(k.mem, tabs[p], u) == 0
    ensures Untouched(k.mem, k'.mem, tabs[p])
  {
    var t := tabs[p];
    forall c | MappedByte(k.mem, t, c)
      ensures MappedByte(k'.mem, t, c) && ByteAt(k'.mem, t, c) == ByteAt(k.mem, t, c)
              && Slot(k'.mem, t, c / 4096) == Slot(k.mem, t, c / 4096)
    {
      var u := c / 4096;
      assert !(v <= u < w);
      MappedInUse(lay, k, tabs, role, p, u);
    }
  }

  lemma MappedInUse(lay: Layout, k: VM, tabs: TableMap, role: Roles, p: int, u: nat)
    requires Inv(lay, k, tabs, role) && p in tabs && 256 <= u < 768 && Slot(k.mem, tabs[p], u) != 0
    ensures var f := Frame(Slot(k.mem, tabs[p], u));
            f < 512 && k.info[f].refcount != 0 && !tabs[p].Has(f) && !role[f].TablePage?
  {
    assert SlotOk(k.mem, tabs[p], role, p, u);
    var f := Frame(Slot(k.mem, tabs[p], u));
    assert PageOk(lay, k, tabs, role, f);
    TableInUse(lay, k, tabs, role, p);
  }

  /** Stores outside what was mapped before leave it untouched. */
  lemma BytesUntouched(lay: Layout, mem0: Memory, mem: Memory, m: Memory, tabs: TableMap, p: int, a: int, n: nat)
    requires p in tabs && Untouched(mem0, mem, tabs[p]) && OnlyBytes(lay, mem, m, tabs, p, a, n)
    requires forall c :: a <= c < a + n ==> !MappedByte(mem0, tabs[p], c)
    ensures Untouched(mem0, m, tabs[p])
  {
    hide Wired, KernelTableOk, Slot, ByteAt;
    var t := tabs[p];
    forall c | MappedByte(mem0, t, c)
      ensures MappedByte(m, t, c) && ByteAt(m, t, c) == ByteAt(mem0, t, c)
              && Slot(m, t, c / 4096) == Slot(mem0, t, c / 4096)
    {
      KeptByte(lay, mem, m, tabs, p, a, n, c);
    }
  }

  /** A byte behind a downgraded or untouched slot keeps its value. */
  lemma DowngradedByte(lay: Layout, k: VM, m: Memory, tabs: TableMap, role: Roles, p: int, v: nat, w: nat, c: int)
    requires Inv(lay, k, tabs, role) && p in tabs && Downgraded(k.mem, m, tabs[p], v, w)
             && MappedByte(k.mem, tabs[p], c)
    ensures MappedByte(m, tabs[p], c) && ByteAt(m, tabs[p], c) == ByteAt(k.mem, tabs[p], c)
  {
    hide Full, Frame, PteFlags, Present, Writable, UserOk;
    var t, u := tabs[p], c / 4096;
    MappedInUse(lay, k, tabs, role, p, u);
    EntryForms(Frame(Slot(k.mem, t, u)));
    hide Inv, Slot, GetByte, ReadOnly;
    assert ReadOnly(Frame(Slot(k.mem, t, u))) != 0 by { ReadOnlyNonzero(Frame(Slot(k.mem, t, u))); }
  }

  lemma ReadOnlyNonzero(f: nat)
    requires f < 512
    ensures ReadOnly(f) != 0
  {
  }

  lemma SpanWritable(mem: Memory, t: Table, seg: Segment, limit: nat)
    requires GoodSegment(seg, limit)
    requires forall u :: seg.va / 4096 <= u < LastPage(seg) ==>
               Frame(Slot(mem, t, u)) < 512 && Slot(mem, t, u) == Full(Frame(Slot(mem, t, u)))
    ensures forall a :: seg.va <= a < seg.va + seg.memsz ==> WritableByte(mem, t, a)
  {
    PageSpan(seg, limit);
    hide Slot, Full, Frame, OnPage, LastPage;
    forall a | seg.va <= a < seg.va + seg.memsz ensures WritableByte(mem, t, a) {
      var u := a / 4096;
      assert Slot(mem, t, u) == Full(Frame(Slot(mem, t, u)));
    }
  }

  /** Copying and clearing give every byte of the segment its value. */
  lemma FillSegment(lay: Layout, k: VM, tabs: TableMap, role: Roles, p: int, seg: Segment, limit: nat)
    returns (k2: VM, m1: Memory)
    requires Inv(lay, k, tabs, role) && p in tabs && GoodSegment(seg, limit)
    requires forall u :: seg.va / 4096 <= u < LastPage(seg) ==>
               Frame(Slot(k.mem, tabs[p], u)) < 512 && Slot(k.mem, tabs[p], u) == Full(Frame(Slot(k.mem, tabs[p], u)))
    ensures StoreBytes(k.mem, tabs[p].l1, seg.va, seg.image[..seg.filesz]) == Ok(m1)
    ensures StoreBytes(m1, tabs[p].l1, seg.va + seg.filesz, Zeros(seg.memsz - seg.filesz)) == Ok(k2.mem)
            && k2.info == k.info
    ensures Inv(lay, k2, tabs, role)
    ensures Exact(k, tabs, role) ==> Exact(k2, tabs, role)
    ensures Owned(k, tabs, role) ==> Owned(k2, tabs, role)
    ensures OnlyBytes(lay, k.mem, k2.mem, tabs, p, seg.va, seg.memsz) && OthersPages(k.info, k.mem, k2.mem, p)
    ensures forall a :: seg.va <= a < seg.va + seg.memsz ==>
              MappedByte(k2.mem, tabs[p], a) && ByteAt(k2.mem, tabs[p], a) == ExpectedByte(seg, a)
  {
    hide Inv, Exact, Owned, Slot, OnlyBytes, ByteAt, StoreBytes, Full, Frame, OnPage, LastPage, WritableByte,
         MappedByte, OthersPages, InUseRecords;
    var t, mid := tabs[p], seg.va + seg.filesz;
    SpanWritable(k.mem, t, seg, limit);
    var k1 := StoreBytesMeaning(lay, k, tabs, role, p, seg.va, seg.image[..seg.filesz]);
    m1 := k1.mem;
    forall a | mid <= a < seg.va + seg.memsz ensures WritableByte(k1.mem, t, a) {
      StillWritable(lay, k.mem, k1.mem, tabs, p, seg.va, seg.filesz, a);
    }
    k2 := StoreBytesMeaning(lay, k1, tabs, role, p, mid, Zeros(seg.memsz - seg.filesz));
    ChainBytes(lay, k.mem, k1.mem, k2.mem, tabs, p, seg.va, seg.filesz, seg.memsz - seg.filesz);
    RecordsSelf(k.info);
    OthersTrans(k.info, k.info, k.mem, k1.mem, k2.mem, p);
    forall a | seg.va <= a < seg.va + seg.memsz
      ensures MappedByte(k2.mem, t, a) && ByteAt(k2.mem, t, a) == ExpectedByte(seg, a) {
      if a < mid {
        KeptByte(lay, k1.mem, k2.mem, tabs, p, mid, seg.memsz - seg.filesz, a);
      }
    }
  }

  /** The slots of the segment's pages are unmapped. */
  ghost predicate RoomFor(mem: Memory, t: Table, seg: Segment) {
    forall u :: 256 <= u < 768 && OnPage(seg, u) ==> Slot(mem, t, u) == 0
  }

  /** Slots of the segment's pages hold full entries for frames free in `info`. */
  ghost predicate FullSlots(info: Info, mem: Memory, t: Table, seg: Segment) {
    forall u :: seg.va / 4096 <= u < LastPage(seg) && u < 768 ==>
      Frame(Slot(mem, t, u)) < 512 && Slot(mem, t, u) == Full(Frame(Slot(mem, t, u)))
        && info[Frame(Slot(mem, t, u))].refcount == 0
  }

  ghost predicate SameElsewhere(mem: Memory, m: Memory, t: Table, seg: Segment) {
    forall u :: 0 <= u < 1024 && !OnPage(seg, u) ==> Slot(m, t, u) == Slot(mem, t, u)
  }

  /** The first loop of a segment. */
  lemma AllocSegment(lay: Layout, k: VM, tabs: TableMap, role: Roles, p: int, seg: Segment, limit: nat)
    returns (k': VM, r: int, role': Roles)
    requires Inv(lay, k, tabs, role) && p in tabs && GoodSegment(seg, limit) && RoomFor(k.mem, tabs[p], seg)
    ensures LoadPages(k, tabs[p].l1, p, seg.Base(), seg.va + seg.memsz) == Ok((k', r)) && r in {0, -1}
    ensures Inv(lay, k', tabs, role')
    ensures Exact(k, tabs, role) ==> Exact(k', tabs, role')
    ensures Owned(k, tabs, role) ==> Owned(k', tabs, role')
    ensures r == 0 ==> FullSlots(k.info, k'.mem, tabs[p], seg) && SameElsewhere(k.mem, k'.mem, tabs[p], seg)
    ensures r == 0 ==> Untouched(k.mem, k'.mem, tabs[p]) && InUseRecords(k.info, k'.info)
    ensures r == 0 ==> OthersPages(k.info, k.mem, k'.mem, p)
    ensures TakesExactly(k.info, k'.info, SegmentPages(seg), r)
  {
    hide OthersPages, InUseRecords, Inv, Exact, Owned, Slot, LoadPages, Extended, Untouched, LastPage, GoodSegment,
         SegmentPages,
         TakesExactly;
    PageSpan(seg, limit);
    var t, v, w := tabs[p], seg.va / 4096, LastPage(seg);
    var end := seg.va + seg.memsz;
    assert forall u :: v <= u < 768 && u * 4096 < end ==> Slot(k.mem, t, u) == 0;
    var w';
    k', r, role', w' := LoadPagesKeeps(lay, k, tabs, role, p, v, end);
    assert w' == w;
    LoadPagesResult(k, t.l1, p, seg.va, end);
    if r == 0 {
      hide OnPage;
      ExtendedSlots(k, k', t, v, w);
      ExtendedUntouched(lay, k, k', tabs, role, p, v, w);
      ExtendedRecords(k, k', t, v, w);
      ExtendedOthers(lay, k, k', tabs, role, p, v, w);
    }
  }

  lemma ExtendedOthers(lay: Layout, k: VM, k': VM, tabs: TableMap, role: Roles, p: int, v: nat, w: nat)
    requires Inv(lay, k, tabs, role) && p in tabs && Extended(k, k', tabs[p], v, w)
    ensures OthersPages(k.info, k.mem, k'.mem, p)
  {
    hide Inv, Slot;
    OwnTable(lay, k, k'.mem, tabs, role, p);
  }

  lemma ExtendedRecords(k: VM, k': VM, t: Table, v: nat, w: nat)
    requires Extended(k, k', t, v, w)
    ensures InUseRecords(k.info, k'.info)
  {
  }

  /** program_load_segment succeeds exactly when enough pages are free. Then the
      segment reads back as its image on fresh frames, no two pages on the same one,
      and nothing the process had mapped is disturbed. */
  lemma LoadSegmentMeaning(lay: Layout, k: VM, tabs: TableMap, role: Roles, p: int, seg: Segment, limit: nat)
    returns (k': VM, r: int, role': Roles)
    requires Inv(lay, k, tabs, role) && p in tabs && GoodSegment(seg, limit) && RoomFor(k.mem, tabs[p], seg)
    ensures LoadSegment(lay, k, tabs[p].l1, p, seg) == Ok((k', r))
    ensures Inv(lay, k', tabs, role')
    ensures Exact(k, tabs, role) ==> Exact(k', tabs, role')
    ensures Owned(k, tabs, role) ==> Owned(k', tabs, role')
    ensures r == 0 ==> SegmentLoaded(k'.mem, tabs[p], seg) && FreshFrames(k.info, k'.mem, tabs[p], seg)
    ensures r == 0 ==> Untouched(k.mem, k'.mem, tabs[p]) && SameElsewhere(k.mem, k'.mem, tabs[p], seg)
    ensures r == 0 ==> DistinctFrames(k'.mem, tabs[p]) && InUseRecords(k.info, k'.info)
    ensures r == 0 ==> OthersPages(k.info, k.mem, k'.mem, p)
    ensures TakesExactly(k.info, k'.info, SegmentPages(seg), r)
  {
    hide OthersPages, SetPagetableOk, DistinctFrames, InUseRecords, Inv, Exact, Owned, Slot, LoadPages, StoreBytes,
         MakeReadOnly,
         OnlyBytes, Downgraded, LastPage, SegmentPages, FreePages, SegmentLoaded, FreshFrames, Untouched, FullSlots,
         SameElsewhere, ByteAt, RoomFor, MappedByte;
    var t := tabs[p];
    var k1, r1, role1 := AllocSegment(lay, k, tabs, role, p, seg, limit);
    if r1 != 0 {
      return k1, -1, role1;
    }
    r := 0;
    LiveActivates(lay, k1, tabs, role1, p);
    FullForFill(k.info, k1.mem, t, seg, limit);
    var k2, m1 := FillSegment(lay, k1, tabs, role1, p, seg, limit);
    FilledSlots(lay, k.info, k.mem, k1.mem, k2.mem, tabs, p, seg);
    OthersTrans(k.info, k1.info, k.mem, k1.mem, k2.mem, p);
    UnmappedBefore(k.mem, t, seg, limit);
    BytesUntouched(lay, k.mem, k1.mem, k2.mem, tabs, p, seg.va, seg.memsz);
    assert seg.Base() == seg.va && seg.image[..seg.va + seg.filesz - seg.Base()] == seg.image[..seg.filesz];
    if seg.writable {
      k', role' := k2, role1;
      FinishWritable(k.info, k2.mem, t, seg, limit);
    } else {
      k', role' := ReadOnlySegment(lay, k.info, k2, tabs, role1, p, seg, limit);
      FinishReadOnly(lay, k, k2, k', tabs, role1, p, seg, limit);
      OthersTrans(k.info, k1.info, k.mem, k2.mem, k'.mem, p);
    }
    KernelTableKept(lay, k', tabs, role');
    FramesDistinct(lay, k', tabs, role', p);
  }

  lemma KernelTableKept(lay: Layout, k: VM, tabs: TableMap, role: Roles)
    requires Inv(lay, k, tabs, role)
    ensures SetPagetableOk(k.mem, lay, lay.tables)
  {
    KernelActivates(lay, k.mem);
  }

  lemma FullForFill(info: Info, mem: Memory, t: Table, seg: Segment, limit: nat)
    requires FullSlots(info, mem, t, seg) && GoodSegment(seg, limit)
    ensures LastPage(seg) <= 768
    ensures forall u :: seg.va / 4096 <= u < LastPage(seg) ==>
              Frame(Slot(mem, t, u)) < 512 && Slot(mem, t, u) == Full(Frame(Slot(mem, t, u)))
  {
    PageSpan(seg, limit);
    hide Slot, LastPage;
  }

  lemma FilledSlots(lay: Layout, info: Info, mem0: Memory, mem: Memory, m: Memory, tabs: TableMap, p: int, seg: Segment)
    requires OnlyBytes(lay, mem, m, tabs, p, seg.va, seg.memsz)
    requires FullSlots(info, mem, tabs[p], seg) && SameElsewhere(mem0, mem, tabs[p], seg)
    ensures FullSlots(info, m, tabs[p], seg) && SameElsewhere(mem0, m, tabs[p], seg)
  {
    hide Slot, Wired, KernelTableOk, LastPage, OnPage;
  }

  lemma ReadOnlySegment(lay: Layout, info: Info, k: VM, tabs: TableMap, role: Roles, p: int, seg: Segment, limit: nat)
    returns (k': VM, role': Roles)
    requires Inv(lay, k, tabs, role) && p in tabs && GoodSegment(seg, limit) && FullSlots(info, k.mem, tabs[p], seg)
    ensures MakeReadOnly(k.mem, tabs[p].l1, seg.va, seg.va + seg.memsz) == Ok(k'.mem) && k'.info == k.info
    ensures Inv(lay, k', tabs, role')
    ensures Exact(k, tabs, role) ==> Exact(k', tabs, role')
    ensures Owned(k, tabs, role) ==> Owned(k', tabs, role')
    ensures Downgraded(k.mem, k'.mem, tabs[p], seg.va / 4096, LastPage(seg)) && OthersPages(k.info, k.mem, k'.mem, p)
  {
    hide OthersPages, Inv, Exact, Owned, Slot, MakeReadOnly, Downgraded, FullSlots, LastPage, OnPage, Frame, Full,
         GoodSegment;
    PageSpan(seg, limit);
    FullForFill(info, k.mem, tabs[p], seg, limit);
    k', role' := MakeReadOnlyMeaning(lay, k, tabs, role, p, seg.va / 4096, LastPage(seg), seg.va + seg.memsz);
  }

  lemma {:induction false} LoadPagesResult(k: VM, root: nat, pid: int, addr: nat, end: nat)
    requires LoadPages(k, root, pid, addr, end).Ok?
    ensures LoadPages(k, root, pid, addr, end).value.1 in {0, -1}
    decreases end - addr
  {
    hide AllocPage, MapPage;
    if addr < end {
      var (info, page) := AllocPage(k.info, pid);
      if page != 0 {
        var m := MapPage(k.mem, root, addr, page * 4096, 7);
        if m.Ok? && m.value.1 >= 0 {
          LoadPagesResult(VM(m.value.0, info), root, pid, addr + 4096, end);
        }
      }
    }
  }

  lemma ExtendedSlots(k: VM, k1: VM, t: Table, v: nat, w: nat)
    requires Extended(k, k1, t, v, w) && w <= 1024
    ensures forall u :: v <= u < w ==>
              Frame(Slot(k1.mem, t, u)) < 512 && Slot(k1.mem, t, u) == Full(Frame(Slot(k1.mem, t, u)))
              && k.info[Frame(Slot(k1.mem, t, u))].refcount == 0
    ensures forall u :: 0 <= u < 1024 && !(v <= u < w) ==> Slot(k1.mem, t, u) == Slot(k.mem, t, u)
  {
  }

  lemma UnmappedBefore(mem: Memory, t: Table, seg: Segment, limit: nat)
    requires GoodSegment(seg, limit) && RoomFor(mem, t, seg)
    ensures forall c :: seg.va <= c < seg.va + seg.memsz ==> !MappedByte(mem, t, c)
  {
    PageSpan(seg, limit);
    hide Slot, OnPage, LastPage;
    forall c | seg.va <= c < seg.va + seg.memsz ensures !MappedByte(mem, t, c) {
      var u := c / 4096;
      assert OnPage(seg, u);
      assert Slot(mem, t, u) == 0;
    }
  }

  lemma FinishWritable(info: Info, mem: Memory, t: Table, seg: Segment, limit: nat)
    requires GoodSegment(seg, limit) && seg.writable && FullSlots(info, mem, t, seg)
    requires forall a :: seg.va <= a < seg.va + seg.memsz ==>
               MappedByte(mem, t, a) && ByteAt(mem, t, a) == ExpectedByte(seg, a)
    ensures SegmentLoaded(mem, t, seg) && FreshFrames(info, mem, t, seg)
  {
    PageSpan(seg, limit);
    hide Slot, Full, Frame, OnPage, ByteAt, MappedByte, ExpectedByte, LastPage;
    forall a | seg.va <= a < seg.va + seg.memsz
      ensures Slot(mem, t, a / 4096) == Full(Frame(Slot(mem, t, a / 4096)))
    {
      var u := a / 4096;
      assert Slot(mem, t, u) == Full(Frame(Slot(mem, t, u)));
    }
  }

  lemma FinishReadOnly(lay: Layout, k: VM, k2: VM, k': VM, tabs: TableMap, role: Roles, p: int, seg: Segment,
                       limit: nat)
    requires Inv(lay, k2, tabs, role) && p in tabs && GoodSegment(seg, limit) && !seg.writable
    requires Downgraded(k2.mem, k'.mem, tabs[p], seg.va / 4096, LastPage(seg))
    requires FullSlots(k.info, k2.mem, tabs[p], seg) && SameElsewhere(k.mem, k2.mem, tabs[p], seg)
    requires forall a :: seg.va <= a < seg.va + seg.memsz ==>
               MappedByte(k2.mem, tabs[p], a) && ByteAt(k2.mem, tabs[p], a) == ExpectedByte(seg, a)
    requires Untouched(k.mem, k2.mem, tabs[p]) && RoomFor(k.mem, tabs[p], seg)
    ensures SegmentLoaded(k'.mem, tabs[p], seg) && FreshFrames(k.info, k'.mem, tabs[p], seg)
    ensures Untouched(k.mem, k'.mem, tabs[p]) && SameElsewhere(k.mem, k'.mem, tabs[p], seg)
  {
    PageSpan(seg, limit);
    var t, v, w := tabs[p], seg.va / 4096, LastPage(seg);
    DowngradedSlots(k2.mem, k'.mem, t, v, w);
    hide Inv, Slot, Full, ReadOnly, Frame, OnPage, ByteAt, ExpectedByte, LastPage, Downgraded;
    forall a | seg.va <= a < seg.va + seg.memsz
      ensures MappedByte(k'.mem, t, a) && ByteAt(k'.mem, t, a) == ExpectedByte(seg, a)
      ensures Slot(k'.mem, t, a / 4096) == ReadOnly(Frame(Slot(k'.mem, t, a / 4096)))
    {
      DowngradedByte(lay, k2, k'.mem, tabs, role, p, v, w, a);
    }
    forall c | MappedByte(k.mem, t, c)
      ensures MappedByte(k'.mem, t, c) && ByteAt(k'.mem, t, c) == ByteAt(k.mem, t, c)
              && Slot(k'.mem, t, c / 4096) == Slot(k.mem, t, c / 4096)
    {
      assert MappedByte(k2.mem, t, c);
      DowngradedByte(lay, k2, k'.mem, tabs, role, p, v, w, c);
      assert !(v <= c / 4096 < w);
    }
  }

  lemma DowngradedSlots(mem: Memory, m: Memory, t: Table, v: nat, w: nat)
    requires Downgraded(mem, m, t, v, w) && w <= 1024
    ensures forall u :: v <= u < w ==>
              Frame(Slot(m, t, u)) == Frame(Slot(mem, t, u)) < 512 && Slot(m, t, u) == ReadOnly(Frame(Slot(m, t, u)))
    ensures forall u :: 0 <= u < 1024 && !(v <= u < w) ==> Slot(m, t, u) == Slot(mem, t, u)
  {
    hide Full, ReadOnly, Frame, PteFlags, Present, Writable, UserOk;
    hide Slot;
    forall u | v <= u < w
      ensures Frame(Slot(m, t, u)) == Frame(Slot(mem, t, u)) < 512 && Slot(m, t, u) == ReadOnly(Frame(Slot(m, t, u))) {
      EntryForms(Frame(Slot(mem, t, u)));
    }
  }

  // ------------------------------------------------------------- whole programs

  /** Segments are good, and no two have bytes on one page. */
  ghost predicate GoodProgram(segs: seq<Segment>, limit: nat) {
    && (forall i :: 0 <= i < |segs| ==> GoodSegment(segs[i], limit))
    && (forall i, j, u: nat :: 0 <= i < j < |segs| && OnPage(segs[i], u) ==> !OnPage(segs[j], u))
  }

  lemma StillLoaded(mem: Memory, m: Memory, t: Table, seg: Segment)
    requires seg.Readable() && seg.va % 4096 == 0 && SegmentLoaded(mem, t, seg) && Untouched(mem, m, t)
    ensures SegmentLoaded(m, t, seg)
  {
    hide Slot, ByteAt, ExpectedByte, Full, ReadOnly, Frame;
    forall a | seg.va <= a < seg.va + seg.memsz
      ensures MappedByte(mem, t, a) && MappedByte(m, t, a) && ByteAt(m, t, a) == ByteAt(mem, t, a) {
    }
  }

  lemma UntouchedTrans(a: Memory, b: Memory, c: Memory, t: Table)
    requires Untouched(a, b, t) && Untouched(b, c, t)
    ensures Untouched(a, c, t)
  {
    hide Slot, ByteAt;
    forall x | MappedByte(a, t, x)
      ensures MappedByte(c, t, x) && ByteAt(c, t, x) == ByteAt(a, t, x) && Slot(c, t, x / 4096) == Slot(a, t, x / 4096)
    {
      assert MappedByte(b, t, x);
    }
  }

  ghost predicate ProgramLoaded(mem: Memory, t: Table, segs: seq<Segment>) {
    forall i :: 0 <= i < |segs| ==> segs[i].Readable() && segs[i].va % 4096 == 0 && SegmentLoaded(mem, t, segs[i])
  }

  ghost predicate RoomForAll(mem: Memory, t: Table, segs: seq<Segment>) {
    forall i :: 0 <= i < |segs| ==> RoomFor(mem, t, segs[i])
  }

  ghost predicate NoSegmentOn(segs: seq<Segment>, u: nat) {
    forall i :: 0 <= i < |segs| ==> !OnPage(segs[i], u)
  }

  ghost predicate SameOutside(mem: Memory, m: Memory, t: Table, segs: seq<Segment>) {
    forall u :: 0 <= u < 1024 && NoSegmentOn(segs, u) ==> Slot(m, t, u) == Slot(mem, t, u)
  }

  lemma RestRoom(mem: Memory, m: Memory, t: Table, segs: seq<Segment>, limit: nat)
    requires GoodProgram(segs, limit) && segs != [] && RoomForAll(mem, t, segs) && SameElsewhere(mem, m, t, segs[0])
    ensures GoodProgram(segs[1..], limit) && RoomForAll(m, t, segs[1..])
  {
    hide Slot, OnPage, GoodSegment, SameElsewhere, RoomFor;
    var rest := segs[1..];
    forall i | 0 <= i < |rest| ensures RoomFor(m, t, rest[i]) {
      var j := i + 1;
      assert rest[i] == segs[j];
      RoomKept(mem, m, t, segs[0], segs[j]);
    }
  }

  lemma CombineLoaded(mem: Memory, m: Memory, t: Table, segs: seq<Segment>, limit: nat)
    requires GoodProgram(segs, limit) && segs != [] && segs[0].Readable() && segs[0].va % 4096 == 0
    requires SegmentLoaded(mem, t, segs[0]) && Untouched(mem, m, t) && ProgramLoaded(m, t, segs[1..])
    ensures ProgramLoaded(m, t, segs)
  {
    StillLoaded(mem, m, t, segs[0]);
    hide SegmentLoaded, Untouched, GoodProgram;
    forall i | 0 <= i < |segs| ensures segs[i].Readable() && segs[i].va % 4096 == 0 && SegmentLoaded(m, t, segs[i]) {
      if i > 0 {
        assert segs[i] == segs[1..][i - 1];
      }
    }
  }

  lemma CombineOutside(mem: Memory, m1: Memory, m: Memory, t: Table, segs: seq<Segment>)
    requires segs != [] && SameElsewhere(mem, m1, t, segs[0]) && SameOutside(m1, m, t, segs[1..])
    ensures SameOutside(mem, m, t, segs)
  {
    hide Slot, OnPage;
    forall u | 0 <= u < 1024 && NoSegmentOn(segs, u) ensures Slot(m, t, u) == Slot(mem, t, u) {
      assert NoSegmentOn(segs[1..], u);
      assert !OnPage(segs[0], u);
    }
  }

  /** Every page of every segment lies on a frame that was free in `info`. */
  ghost predicate FreshProgram(info: Info, mem: Memory, t: Table, segs: seq<Segment>) {
    forall i :: 0 <= i < |segs| ==> FreshFrames(info, mem, t, segs[i])
  }

  lemma CombineFresh(info: Info, k: VM, m: Memory, t: Table, segs: seq<Segment>, limit: nat)
    requires GoodProgram(segs, limit) && segs != [] && FreshFrames(info, k.mem, t, segs[0])
             && InUseRecords(info, k.info)
    requires SameOutside(k.mem, m, t, segs[1..]) && FreshProgram(k.info, m, t, segs[1..])
    ensures FreshProgram(info, m, t, segs)
  {
    hide Slot, Frame, OnPage, GoodSegment;
    forall i | 0 <= i < |segs| ensures FreshFrames(info, m, t, segs[i]) {
      if i > 0 {
        assert segs[1..][i - 1] == segs[i];
      } else {
        forall u | 256 <= u < 768 && OnPage(segs[0], u) ensures Slot(m, t, u) == Slot(k.mem, t, u) {
          assert NoSegmentOn(segs[1..], u);
        }
      }
    }
  }

  lemma AllReadable(segs: seq<Segment>, limit: nat)
    requires GoodProgram(segs, limit)
    ensures forall s :: s in segs ==> s.Readable()
  {
    forall s | s in segs ensures s.Readable() {
      var i :| 0 <= i < |segs| && segs[i] == s;
      assert GoodSegment(segs[i], limit);
    }
  }

  function ProgramPages(segs: seq<Segment>): nat {
    if segs == [] then 0 else SegmentPages(segs[0]) + ProgramPages(segs[1..])
  }

  /** Loading a program succeeds exactly when enough pages are free. Then every
      segment reads back as its image, byte for byte, however many segments were
      loaded after it, and every page lies on its own frame, free before. */
  lemma {:induction false} LoadProgramMeaning(lay: Layout, k: VM, tabs: TableMap, role: Roles, p: int,
                                              segs: seq<Segment>, limit: nat)
    returns (k': VM, r: int, role': Roles)
    requires Inv(lay, k, tabs, role) && p in tabs && GoodProgram(segs, limit) && RoomForAll(k.mem, tabs[p], segs)
    ensures (forall s :: s in segs ==> s.Readable()) && LoadProgram(lay, k, tabs[p].l1, p, segs) == Ok((k', r))
    ensures Inv(lay, k', tabs, role')
    ensures Exact(k, tabs, role) ==> Exact(k', tabs, role')
    ensures Owned(k, tabs, role) ==> Owned(k', tabs, role')
    ensures r == 0 ==> ProgramLoaded(k'.mem, tabs[p], segs) && Untouched(k.mem, k'.mem, tabs[p])
    ensures r == 0 ==> SameOutside(k.mem, k'.mem, tabs[p], segs)
    ensures r == 0 ==>
              FreshProgram(k.info, k'.mem, tabs[p], segs) && DistinctFrames(k'.mem, tabs[p])
                && InUseRecords(k.info, k'.info)
    ensures r == 0 ==> OthersPages(k.info, k.mem, k'.mem, p)
    ensures TakesExactly(k.info, k'.info, ProgramPages(segs), r)
    decreases |segs|
  {
    hide OthersPages, SegmentPages, FreePages, DistinctFrames, InUseRecords, FreshProgram, Inv, Exact, Owned,
         SegmentLoaded,
         Untouched, FreshFrames, LoadSegment, SameElsewhere, SameOutside, ProgramLoaded, RoomFor;
    var t := tabs[p];
    AllReadable(segs, limit);
    hide GoodProgram, RoomForAll, GoodSegment;
    if segs == [] {
      LoadNothing(k, t);
      OthersSelf(k.info, k.mem, p);
      FramesDistinct(lay, k, tabs, role, p);
      return k, 0, role;
    }
    FirstSegment(k.mem, t, segs, limit);
    var k1, r1, role1 := LoadSegmentMeaning(lay, k, tabs, role, p, segs[0], limit);
    NoError(lay, k, t.l1, p, segs[0]);
    if r1 < 0 {
      return k1, -1, role1;
    }
    RestRoom(k.mem, k1.mem, t, segs, limit);
    k', r, role' := LoadProgramMeaning(lay, k1, tabs, role1, p, segs[1..], limit);
    if r == 0 {
      UntouchedTrans(k.mem, k1.mem, k'.mem, t);
      CombineLoaded(k1.mem, k'.mem, t, segs, limit);
      CombineOutside(k.mem, k1.mem, k'.mem, t, segs);
      CombineFresh(k.info, k1, k'.mem, t, segs, limit);
      RecordsTrans(k.info, k1.info, k'.info);
      OthersTrans(k.info, k1.info, k.mem, k1.mem, k'.mem, p);
    }
  }

  lemma LoadNothing(k: VM, t: Table)
    ensures Untouched(k.mem, k.mem, t) && ProgramLoaded(k.mem, t, []) && SameOutside(k.mem, k.mem, t, [])
    ensures FreshProgram(k.info, k.mem, t, []) && InUseRecords(k.info, k.info)
  {
  }

  lemma RoomKept(mem: Memory, m: Memory, t: Table, seg: Segment, other: Segment)
    requires RoomFor(mem, t, other) && forall u: nat :: OnPage(seg, u) ==> !OnPage(other, u)
    requires SameElsewhere(mem, m, t, seg)
    ensures RoomFor(m, t, other)
  {
    hide Slot, OnPage;
  }

  lemma FirstSegment(mem: Memory, t: Table, segs: seq<Segment>, limit: nat)
    requires segs != [] && GoodProgram(segs, limit) && RoomForAll(mem, t, segs)
    ensures GoodSegment(segs[0], limit) && segs[0].Readable() && segs[0].va % 4096 == 0 && RoomFor(mem, t, segs[0])
  {
  }

  /** program_load_segment returns 0 or -1. */
  lemma NoError(lay: Layout, k: VM, root: nat, pid: int, seg: Segment)
    requires seg.Readable() && LoadSegment(lay, k, root, pid, seg).Ok?
    ensures LoadSegment(lay, k, root, pid, seg).value.1 in {0, -1}
  {
    hide LoadPages, StoreBytes, MakeReadOnly, SetPagetableOk;
    if LoadPages(k, root, pid, seg.Base(), seg.va + seg.memsz).Ok? {
      LoadPagesResult(k, root, pid, seg.Base(), seg.va + seg.memsz);
    }
  }
}
