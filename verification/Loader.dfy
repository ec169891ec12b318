/** k-loader.c: program segments are given fresh pages, written through the
    process's own table, and made read-only unless the segment is writable. */
module Loader {
  import opened X86
  import opened Paging
  import opened Tables
  import opened Spaces
  import opened Bytes
  import opened Alloc
  import opened Duplicate
  import opened Forks
  import opened Activation

  /** An ELF_PTYPE_LOAD program header; `image` is the RAM image from `p_offset` on. */
  datatype Segment = Segment(va: nat, filesz: nat, memsz: nat, writable: bool, image: seq<Byte>) {
    function Base(): nat {
      va - va % 4096
    }

    /** The copy stays inside the image and the clearing length does not wrap. */
    predicate Readable() {
      && filesz <= memsz && va + memsz < 0x1_0000_0000_0000
      && va + filesz - Base() <= |image|
    }
  }

  // --------------------------------------------------------------- operations

  /** The allocation loop of k-loader.c:92-100; -1 when memory or a table is missing. */
  function LoadPages(k: VM, root: nat, pid: int, addr: nat, end: nat): (r: Result<(VM, int)>)
    decreases end - addr
  {
    if addr >= end then
      Ok((k, 0))
    else
      var (info, page) := AllocPage(k.info, pid);
      if page == 0 then
        Ok((VM(k.mem, info), -1))
      else
        var (m, r) :- MapPage(k.mem, root, addr, page * 4096, 7);
        if r < 0 then Ok((VM(m, info), -1)) else LoadPages(VM(m, info), root, pid, addr + 4096, end)
  }

  /** A kernel store of bytes through the table at `root`; touching an unmapped
      address is a kernel page fault. */
  function StoreBytes(mem: Memory, root: nat, a: nat, bs: seq<Byte>): (r: Result<Memory>)
    requires a + |bs| <= 0x1_0000_0000_0000
    decreases |bs|
  {
    if bs == [] then
      Ok(mem)
    else
      var vam := Lookup(mem, root, a);
      if vam == UNMAPPED || vam.pa < 0 || vam.pa / 4096 >= 512 then
        Panic
      else
        var f := vam.pa / 4096;
        StoreBytes(mem[f := PutByte(mem[f], a % 4096, bs[0])], root, a + 1, bs[1..])
  }

  /** The downgrade loop of k-loader.c:108-111. */
  function MakeReadOnly(mem: Memory, root: nat, addr: nat, end: nat): (r: Result<Memory>)
    requires end < 0x1_0000_0000_0000
    decreases end - addr
  {
    if addr >= end then
      Ok(mem)
    else
      var pa := Lookup(mem, root, addr).pa;
      if pa < 0 then
        Panic
      else
        var (m, _) :- MapPage(mem, root, addr, pa, 5);
        MakeReadOnly(m, root, addr + 4096, end)
  }

  function Zeros(n: nat): seq<Byte> {
    seq(n, _ => 0)
  }

  /** program_load_segment. The process's table is activated for the copy, and the
      kernel's after it. */
  function LoadSegment(lay: Layout, k: VM, root: nat, pid: int, seg: Segment): (r: Result<(VM, int)>)
    requires seg.Readable()
  {
    var base, endFile, endMem := seg.Base(), seg.va + seg.filesz, seg.va + seg.memsz;
    var (k1, r) :- LoadPages(k, root, pid, base, endMem);
    if r < 0 then
      Ok((k1, -1))
    else if !SetPagetableOk(k1.mem, lay, root) then
      Panic
    else
      var m1 :- StoreBytes(k1.mem, root, base, seg.image[..endFile - base]);
      var m2 :- StoreBytes(m1, root, endFile, Zeros(endMem - endFile));
      var m3 :- if seg.writable then Ok(m2) else MakeReadOnly(m2, root, base, endMem);
      if SetPagetableOk(m3, lay, lay.tables) then Ok((VM(m3, k1.info), 0)) else Panic
  }

  /** program_load over its loadable segments. */
  function LoadProgram(lay: Layout, k: VM, root: nat, pid: int, segs: seq<Segment>): (r: Result<(VM, int)>)
    requires forall s :: s in segs ==> s.Readable()
    decreases |segs|
  {
    if segs == [] then
      Ok((k, 0))
    else
      var (k1, r) :- LoadSegment(lay, k, root, pid, segs[0]);
      if r < 0 then Ok((k1, -1)) else LoadProgram(lay, k1, root, pid, segs[1..])
  }

  // -------------------------------------------------------------------- frames

  /** Records of pages in use are left alone. */
  ghost predicate InUseRecords(info: Info, info': Info) {
    forall x :: 0 <= x < 512 && info[x].refcount != 0 ==> info'[x] == info[x]
  }

  lemma RecordsTrans(a: Info, b: Info, c: Info)
    requires InUseRecords(a, b) && InUseRecords(b, c)
    ensures InUseRecords(a, c)
  {
  }

  /** Pages in use on record to others than `p` keep their content. */
  ghost predicate OthersPages(info: Info, mem: Memory, m: Memory, p: int) {
    forall x :: 0 <= x < 512 && info[x].refcount != 0 && info[x].owner != p ==> m[x] == mem[x]
  }

  lemma RecordsSelf(info: Info)
    ensures InUseRecords(info, info)
  {
  }

  lemma OthersSelf(info: Info, mem: Memory, p: int)
    ensures OthersPages(info, mem, mem, p)
  {
  }

  lemma OthersTrans(i: Info, j: Info, a: Memory, b: Memory, c: Memory, p: int)
    requires OthersPages(i, a, b, p) && OthersPages(j, b, c, p) && InUseRecords(i, j)
    ensures OthersPages(i, a, c, p)
  {
  }

  /** Writing private or table pages of `p` is no concern of others. */
  lemma OwnPage(lay: Layout, k: VM, tabs: TableMap, role: Roles, p: int, f: nat, pg: Page)
    requires Inv(lay, k, tabs, role) && f < 512 && role[f].Private? && role[f].pid == p
    ensures OthersPages(k.info, k.mem, k.mem[f := pg], p)
  {
    assert PageOk(lay, k, tabs, role, f);
  }

  lemma OwnTable(lay: Layout, k: VM, m: Memory, tabs: TableMap, role: Roles, p: int)
    requires Inv(lay, k, tabs, role) && p in tabs
    requires forall x :: 0 <= x < 512 && k.info[x].refcount != 0 && !tabs[p].Has(x) ==> m[x] == k.mem[x]
    ensures OthersPages(k.info, k.mem, m, p)
  {
    TableInUse(lay, k, tabs, role, p);
  }

  // --------------------------------------------------------------- allocation

  /** Pages `[v, w)` of the table have become private pages on frames that were
      free in `k`; every other slot and every page then in use is as it was. */
  ghost predicate Extended(k: VM, k': VM, t: Table, v: nat, w: nat) {
    && (forall u :: 0 <= u < 1024 ==>
          if v <= u < w then
            Frame(Slot(k'.mem, t, u)) < 512 && Slot(k'.mem, t, u) == Full(Frame(Slot(k'.mem, t, u)))
            && k.info[Frame(Slot(k'.mem, t, u))].refcount == 0
          else Slot(k'.mem, t, u) == Slot(k.mem, t, u))
    && (forall x :: 0 <= x < 512 && k.info[x].refcount != 0 ==>
      k'.info[x] == k.info[x] && (!t.Has(x) ==> k'.mem[x] == k.mem[x]))
  }

  /** One allocation: a free page mapped at an unmapped user page. */
  lemma LoadStep(lay: Layout, k: VM, tabs: TableMap, role: Roles, p: int, v: nat, f: nat) returns (k': VM, role': Roles)
    requires Inv(lay, k, tabs, role) && p in tabs && 256 <= v < 768 && Slot(k.mem, tabs[p], v) == 0
    requires f == FindFree(k.info, 1) < 512
    ensures AllocPage(k.info, p) == (k'.info, f) && MapPage(k.mem, tabs[p].l1, v * 4096, f * 4096, 7) == Ok((k'.mem, 0))
    ensures Inv(lay, k', tabs, role')
    ensures Exact(k, tabs, role) ==> Exact(k', tabs, role')
    ensures Owned(k, tabs, role) ==> Owned(k', tabs, role')
    ensures SlotUpdated(lay, k.mem, k'.mem, tabs, p, v, Full(f)) && k'.info == k.info[f := PageInfo(p, 1)]
    ensures forall x :: 0 <= x < 512 && !tabs[p].Has(x) ==> k'.mem[x] == k.mem[x]
  {
    hide Inv, Exact, Owned, Wired, Slot, WriteSlot, MapPage, FindFree, SlotUpdated, Full;
    LiveWired(lay, k, tabs, role, p);
    assert v * 4096 % 4096 == 0 && v * 4096 / 4096 == v;
    MapFreePage(k.mem, tabs[p], v * 4096, f);
    SlotWrite(lay, k, tabs, role, p, v, Full(f));
    WriteSlotPages(k.mem, tabs[p], v, Full(f));
    k' := VM(WriteSlot(k.mem, tabs[p], v, Full(f)), k.info[f := PageInfo(p, 1)]);
    MapFresh(lay, k, k', tabs, role, p, v, f);
    role' := RolesAfterMap(k.mem, tabs, role, p, v, f);
  }

  lemma ExtendMore(lay: Layout, k: VM, k1: VM, k': VM, tabs: TableMap, role: Roles, p: int, v: nat, w: nat, f: nat)
    requires Inv(lay, k, tabs, role) && p in tabs && 256 <= v < w <= 768 && f < 512 && k.info[f].refcount == 0
    requires SlotUpdated(lay, k.mem, k1.mem, tabs, p, v, Full(f)) && k1.info == k.info[f := PageInfo(p, 1)]
    requires forall x :: 0 <= x < 512 && !tabs[p].Has(x) ==> k1.mem[x] == k.mem[x]
    requires Extended(k1, k', tabs[p], v + 1, w)
    ensures Extended(k, k', tabs[p], v, w)
  {
    hide Full, ReadOnly, Frame, PteFlags, Present, Writable, UserOk;
    EntryForms(f);
    hide Inv, Wired, Slot, KernelTableOk;
    var t := tabs[p];
    forall u | 0 <= u < 1024
      ensures if v <= u < w then
                Frame(Slot(k'.mem, t, u)) < 512 && Slot(k'.mem, t, u) == Full(Frame(Slot(k'.mem, t, u)))
                && k.info[Frame(Slot(k'.mem, t, u))].refcount == 0
              else Slot(k'.mem, t, u) == Slot(k.mem, t, u)
    {
    }
  }

  /** `r` is 0 exactly when `n` pages were free in `info`; then `n` fewer are. */
  ghost predicate TakesExactly(info: Info, info': Info, n: int, r: int) {
    && (r == 0 <==> |FreePages(info)| >= n)
    && (r == 0 ==> |FreePages(info')| == |FreePages(info)| - n)
  }

  /** The allocation loop keeps the invariant; on success it extends the table. */
  lemma {:induction false} LoadPagesKeeps(lay: Layout, k: VM, tabs: TableMap, role: Roles, p: int, v: nat, end: nat)
    returns (k': VM, r: int, role': Roles, w: nat)
    requires Inv(lay, k, tabs, role) && p in tabs && 256 <= v && end <= 768 * 4096
    requires forall u :: v <= u < 768 && u * 4096 < end ==> Slot(k.mem, tabs[p], u) == 0
    ensures LoadPages(k, tabs[p].l1, p, v * 4096, end) == Ok((k', r))
    ensures Inv(lay, k', tabs, role')
    ensures Exact(k, tabs, role) ==> Exact(k', tabs, role')
    ensures Owned(k, tabs, role) ==> Owned(k', tabs, role')
    ensures w == (if v * 4096 >= end then v else (end + 4095) / 4096) && v <= w
    ensures r == 0 ==> Extended(k, k', tabs[p], v, w)
    ensures TakesExactly(k.info, k'.info, w - v, r)
    decreases end - v * 4096
  {
    hide Inv, Exact, Owned, Wired, Slot, MapPage, FindFree, FreePages, SlotUpdated;
    AllocTakes(k.info, p);
    w := if v * 4096 >= end then v else (end + 4095) / 4096;
    if v * 4096 >= end {
      return k, 0, role, w;
    }
    var f := FindFree(k.info, 1);
    if f == 512 {
      return k, -1, role, w;
    }
    var k1, role1 := LoadStep(lay, k, tabs, role, p, v, f);
    forall u | v + 1 <= u < 768 && u * 4096 < end ensures Slot(k1.mem, tabs[p], u) == 0 {
      UpdatedElsewhere(lay, k.mem, k1.mem, tabs, p, v, Full(f), u);
    }
    var w';
    k', r, role', w' := LoadPagesKeeps(lay, k1, tabs, role1, p, v + 1, end);
    assert w == w';
    if r == 0 {
      ExtendMore(lay, k, k1, k', tabs, role, p, v, w, f);
    }
  }

  lemma UpdatedElsewhere(lay: Layout, mem: Memory, m: Memory, tabs: TableMap, p: int, v: nat, w: Word, u: nat)
    requires SlotUpdated(lay, mem, m, tabs, p, v, w) && p in tabs && u < 1024 && u != v
    ensures Slot(m, tabs[p], u) == Slot(mem, tabs[p], u)
  {
  }

  // --------------------------------------------------------------------- bytes

  predicate UserAddress(a: int) {
    PROC_START_ADDR <= a < MEMSIZE_VIRTUAL
  }

  /** `a` is a user address that the table maps. */
  predicate MappedByte(mem: Memory, t: Table, a: int) {
    UserAddress(a) && Slot(mem, t, a / 4096) != 0 && Frame(Slot(mem, t, a / 4096)) < 512
  }

  /** The byte a process reads at `a` through its table. */
  function ByteAt(mem: Memory, t: Table, a: int): Byte
    requires MappedByte(mem, t, a)
  {
    GetByte(mem[Frame(Slot(mem, t, a / 4096))], a % 4096)
  }

  /** `a` is a user address that the table maps writable. */
  predicate WritableByte(mem: Memory, t: Table, a: int) {
    UserAddress(a) && Frame(Slot(mem, t, a / 4096)) < 512
      && Slot(mem, t, a / 4096) == Full(Frame(Slot(mem, t, a / 4096)))
  }

  /** Same mappings, and the same bytes outside `[a, a + n)`. */
  ghost predicate OnlyBytes(lay: Layout, mem: Memory, m: Memory, tabs: TableMap, p: int, a: int, n: nat) {
    && p in tabs && SlotsSame(lay, mem, m, tabs)
    && forall c :: MappedByte(mem, tabs[p], c) && !(a <= c < a + n) ==>
         MappedByte(m, tabs[p], c) && ByteAt(m, tabs[p], c) == ByteAt(mem, tabs[p], c)
  }

  lemma PrivateRole(lay: Layout, k: VM, tabs: TableMap, role: Roles, p: int, v: nat, f: nat)
    requires Inv(lay, k, tabs, role) && p in tabs && 256 <= v < 768 && f < 512 && Slot(k.mem, tabs[p], v) == Full(f)
    ensures role[f] == Private(p, v)
  {
    assert SlotOk(k.mem, tabs[p], role, p, v);
    EntryForms(f);
    hide Inv, Slot;
  }

  lemma PrivateFrame(lay: Layout, k: VM, tabs: TableMap, role: Roles, p: int, a: int)
    requires Inv(lay, k, tabs, role) && p in tabs && WritableByte(k.mem, tabs[p], a)
    ensures var f := Frame(Slot(k.mem, tabs[p], a / 4096));
            role[f] == Private(p, a / 4096) && Lookup(k.mem, tabs[p].l1, a) == VaMapping(f, f * 4096 + a % 4096, 7)
  {
    hide Wired, Slot, Lookup, Inv, Frame, Full, PteFlags, Present, Writable, UserOk, ReadOnly;
    var v := a / 4096;
    var f := Frame(Slot(k.mem, tabs[p], v));
    PrivateRole(lay, k, tabs, role, p, v, f);
    LiveWired(lay, k, tabs, role, p);
    EntryForms(f);
    LookupWired(k.mem, tabs[p], a);
  }

  /** Writing one byte through the table changes the byte at that address only. */
  lemma StoreByteStep(lay: Layout, k: VM, tabs: TableMap, role: Roles, p: int, a: int, b: Byte) returns (k': VM)
    requires Inv(lay, k, tabs, role) && p in tabs && WritableByte(k.mem, tabs[p], a)
    ensures var f := Frame(Slot(k.mem, tabs[p], a / 4096));
            k' == VM(k.mem[f := PutByte(k.mem[f], a % 4096, b)], k.info)
    ensures Inv(lay, k', tabs, role)
    ensures Exact(k, tabs, role) ==> Exact(k', tabs, role)
    ensures Owned(k, tabs, role) ==> Owned(k', tabs, role)
    ensures OnlyBytes(lay, k.mem, k'.mem, tabs, p, a, 1)
    ensures MappedByte(k'.mem, tabs[p], a) && ByteAt(k'.mem, tabs[p], a) == b
  {
    hide Inv, Exact, Owned, Wired, Slot, Lookup, KernelTableOk, PutByte, GetByte, Full;
    var t, f := tabs[p], Frame(Slot(k.mem, tabs[p], a / 4096));
    PrivateFrame(lay, k, tabs, role, p, a);
    k' := VM(k.mem[f := PutByte(k.mem[f], a % 4096, b)], k.info);
    NotKernelFrame(lay, k, tabs, role, f);
    DataKeeps(lay, k, tabs, role, k'.mem);
    FullNonzero(f);
    assert Slot(k'.mem, t, a / 4096) == Slot(k.mem, t, a / 4096);
    PutThenGet(k.mem[f], a % 4096, b, a % 4096);
    forall c | MappedByte(k.mem, t, c) && c != a
      ensures MappedByte(k'.mem, t, c) && ByteAt(k'.mem, t, c) == ByteAt(k.mem, t, c)
    {
      OtherByte(lay, k, k'.mem, tabs, role, p, a, b, f, c);
    }
  }

  lemma OtherByte(lay: Layout, k: VM, m: Memory, tabs: TableMap, role: Roles, p: int, a: int, b: Byte, f: nat, c: int)
    requires Inv(lay, k, tabs, role) && p in tabs && UserAddress(a) && f < 512 && role[f] == Private(p, a / 4096)
    requires m == k.mem[f := PutByte(k.mem[f], a % 4096, b)] && MappedByte(k.mem, tabs[p], c) && c != a
    requires Slot(m, tabs[p], c / 4096) == Slot(k.mem, tabs[p], c / 4096)
    ensures MappedByte(m, tabs[p], c) && ByteAt(m, tabs[p], c) == ByteAt(k.mem, tabs[p], c)
  {
    hide Inv, Slot, PutByte, GetByte, Frame;
    if Frame(Slot(k.mem, tabs[p], c / 4096)) == f {
      SameFrame(lay, k, tabs, role, p, a / 4096, c / 4096, f);
      PutThenGet(k.mem[f], a % 4096, b, c % 4096);
    }
  }

  lemma FullNonzero(f: nat)
    requires f < 512
    ensures Full(f) != 0
  {
  }

  lemma NotKernelFrame(lay: Layout, k: VM, tabs: TableMap, role: Roles, f: nat)
    requires Inv(lay, k, tabs, role) && f < 512 && role[f].Private?
    ensures !lay.KernelTable().Has(f)
  {
    if lay.KernelTable().Has(f) {
      KernelPages(lay, k.mem, f);
      SystemRole(lay, k, tabs, role, f);
    }
  }

  lemma SameFrame(lay: Layout, k: VM, tabs: TableMap, role: Roles, p: int, v: nat, u: nat, f: nat)
    requires Inv(lay, k, tabs, role) && p in tabs && 256 <= v < 768 && 256 <= u < 768 && f < 512
    requires role[f] == Private(p, v) && Slot(k.mem, tabs[p], u) != 0 && Frame(Slot(k.mem, tabs[p], u)) == f
    ensures u == v
  {
    assert SlotOk(k.mem, tabs[p], role, p, u);
  }

  /** Storing a block of bytes: exactly those bytes change. */
  lemma {:induction false} StoreBytesMeaning(lay: Layout, k: VM, tabs: TableMap, role: Roles, p: int, a: nat,
                                             bs: seq<Byte>)
    returns (k': VM)
    requires Inv(lay, k, tabs, role) && p in tabs && a + |bs| <= 0x1_0000_0000_0000
    requires forall c :: a <= c < a + |bs| ==> WritableByte(k.mem, tabs[p], c)
    ensures StoreBytes(k.mem, tabs[p].l1, a, bs) == Ok(k'.mem) && k'.info == k.info
    ensures Inv(lay, k', tabs, role)
    ensures Exact(k, tabs, role) ==> Exact(k', tabs, role)
    ensures Owned(k, tabs, role) ==> Owned(k', tabs, role)
    ensures OnlyBytes(lay, k.mem, k'.mem, tabs, p, a, |bs|)
    ensures forall c :: a <= c < a + |bs| ==> MappedByte(k'.mem, tabs[p], c) && ByteAt(k'.mem, tabs[p], c) == bs[c - a]
    ensures OthersPages(k.info, k.mem, k'.mem, p)
    decreases |bs|
  {
    hide Inv, Exact, Owned, Lookup, OnlyBytes, PutByte, ByteAt, OthersPages, InUseRecords;
    if bs == [] {
      SelfOnly(lay, k, tabs, role, p, a);
      OthersSelf(k.info, k.mem, p);
      return k;
    }
    PrivateFrame(lay, k, tabs, role, p, a);
    var k1 := StoreByteStep(lay, k, tabs, role, p, a, bs[0]);
    var f := Frame(Slot(k.mem, tabs[p], a / 4096));
    OwnPage(lay, k, tabs, role, p, f, PutByte(k.mem[f], a % 4096, bs[0]));
    forall c | a + 1 <= c < a + |bs| ensures WritableByte(k1.mem, tabs[p], c) {
      StillWritable(lay, k.mem, k1.mem, tabs, p, a, 1, c);
    }
    k' := StoreBytesMeaning(lay, k1, tabs, role, p, a + 1, bs[1..]);
    RecordsSelf(k.info);
    OthersTrans(k.info, k.info, k.mem, k1.mem, k'.mem, p);
    ChainBytes(lay, k.mem, k1.mem, k'.mem, tabs, p, a, 1, |bs| - 1);
    KeptByte(lay, k1.mem, k'.mem, tabs, p, a + 1, |bs| - 1, a);
  }

  lemma SelfOnly(lay: Layout, k: VM, tabs: TableMap, role: Roles, p: int, a: int)
    requires Inv(lay, k, tabs, role) && p in tabs
    ensures OnlyBytes(lay, k.mem, k.mem, tabs, p, a, 0)
  {
    DataFrame(lay, k, tabs, role, k.mem);
  }

  lemma StillWritable(lay: Layout, mem: Memory, m: Memory, tabs: TableMap, p: int, a: int, n: nat, c: int)
    requires OnlyBytes(lay, mem, m, tabs, p, a, n) && WritableByte(mem, tabs[p], c)
    ensures WritableByte(m, tabs[p], c)
  {
    hide Wired, KernelTableOk;
    assert Slot(m, tabs[p], c / 4096) == Slot(mem, tabs[p], c / 4096);
  }

  lemma KeptByte(lay: Layout, mem: Memory, m: Memory, tabs: TableMap, p: int, a: int, n: nat, c: int)
    requires OnlyBytes(lay, mem, m, tabs, p, a, n) && MappedByte(mem, tabs[p], c) && !(a <= c < a + n)
    ensures MappedByte(m, tabs[p], c) && ByteAt(m, tabs[p], c) == ByteAt(mem, tabs[p], c)
  {
    hide Wired, KernelTableOk;
  }

  lemma ChainBytes(lay: Layout, mem: Memory, m1: Memory, m2: Memory, tabs: TableMap, p: int, a: int, i: nat, j: nat)
    requires OnlyBytes(lay, mem, m1, tabs, p, a, i) && OnlyBytes(lay, m1, m2, tabs, p, a + i, j)
    ensures OnlyBytes(lay, mem, m2, tabs, p, a, i + j)
  {
    hide Wired, KernelTableOk, Slot, ByteAt, MappedByte;
  }

  // ----------------------------------------------------------------- read-only

  /** Downgrading a private page makes it a shared page with one sharer. */
  lemma DowngradeKeeps(lay: Layout, k: VM, k': VM, tabs: TableMap, role: Roles, p: int, v: nat, f: nat)
    requires Inv(lay, k, tabs, role) && p in tabs && 256 <= v < 768 && f < 512
    requires Slot(k.mem, tabs[p], v) == Full(f)
    requires SlotUpdated(lay, k.mem, k'.mem, tabs, p, v, ReadOnly(f)) && k'.info == k.info
    ensures Inv(lay, k', tabs, role[f := Shared(v)])
    ensures Exact(k, tabs, role) ==> Exact(k', tabs, role[f := Shared(v)])
    ensures Owned(k, tabs, role) ==> Owned(k', tabs, role[f := Shared(v)])
  {
    var role' := role[f := Shared(v)];
    EntryForms(f);
    assert SlotOk(k.mem, tabs[p], role, p, v);
    assert role[f] == Private(p, v);
    hide KernelTableOk, Wired, Slot, SlotOk, PageOk, ExactAt, OwnedAt, Full, ReadOnly;
    forall pn | 0 <= pn < 512
      ensures PageOk(lay, k', tabs, role', pn)
      ensures ExactAt(k, tabs, role, pn) ==> ExactAt(k', tabs, role', pn)
      ensures OwnedAt(k, tabs, role, pn) ==> OwnedAt(k', tabs, role', pn)
    {
      DowngradePage(lay, k, k', tabs, role, p, v, f, pn);
    }
    forall q | q in tabs ensures SpaceOk(k'.mem, tabs, role', q) {
      assert SpaceOk(k.mem, tabs, role, q);
    }
    forall q, u | q in tabs && 0 <= u < 1024 ensures SlotOk(k'.mem, tabs[q], role', q, u) {
      assert SlotOk(k.mem, tabs[q], role, q, u);
      DowngradeSlot(k, k', tabs, role, p, v, f, q, u);
    }
  }

  lemma DowngradeSlot(k: VM, k': VM, tabs: TableMap, role: Roles, p: int, v: nat, f: nat, q: int, u: nat)
    requires q in tabs && p in tabs && u < 1024 && 256 <= v < 768 && f < 512 && role[f] == Private(p, v)
    requires SlotOk(k.mem, tabs[q], role, q, u)
    requires Slot(k'.mem, tabs[q], u) == if q == p && u == v then ReadOnly(f) else Slot(k.mem, tabs[q], u)
    ensures SlotOk(k'.mem, tabs[q], role[f := Shared(v)], q, u)
  {
    hide Full, ReadOnly, Frame, PteFlags, Present, Writable, UserOk;
    EntryForms(f);
    hide Slot;
  }

  lemma DowngradePage(lay: Layout, k: VM, k': VM, tabs: TableMap, role: Roles, p: int, v: nat, f: nat, pn: nat)
    requires Inv(lay, k, tabs, role) && p in tabs && 256 <= v < 768 && f < 512 && pn < 512
    requires Slot(k.mem, tabs[p], v) == Full(f) && role[f] == Private(p, v)
    requires SlotUpdated(lay, k.mem, k'.mem, tabs, p, v, ReadOnly(f)) && k'.info == k.info
    ensures var role' := role[f := Shared(v)];
            && PageOk(lay, k', tabs, role', pn)
            && (ExactAt(k, tabs, role, pn) ==> ExactAt(k', tabs, role', pn))
            && (OwnedAt(k, tabs, role, pn) ==> OwnedAt(k', tabs, role', pn))
  {
    hide Frame, PteFlags, Present, Writable, UserOk;
    assert PageOk(lay, k, tabs, role, pn);
    assert SpaceOk(k.mem, tabs, role, p);
    EntryForms(f);
    EntryForms(pn);
    hide KernelTableOk, Wired, Slot, Full, ReadOnly, IsSystem, InitInfo, Sharers, SlotsOk, PagesOk, SpacesOk;
    if pn == f {
      OneSharer(lay, k, k', tabs, role, p, v, f);
    } else if role[pn].Shared? {
      SharersAround(lay, k.mem, k'.mem, tabs, p, v, f, pn, role[pn].home);
    }
  }

  lemma OneSharer(lay: Layout, k: VM, k': VM, tabs: TableMap, role: Roles, p: int, v: nat, f: nat)
    requires Inv(lay, k, tabs, role) && p in tabs && 256 <= v < 768 && f < 512 && role[f] == Private(p, v)
    requires SlotUpdated(lay, k.mem, k'.mem, tabs, p, v, ReadOnly(f))
    ensures Sharers(k'.mem, tabs, f, v) == {p}
  {
    EntryForms(f);
    hide KernelTableOk, Wired, Slot, PagesOk, SpacesOk;
    forall q | q in tabs ensures Shares(k'.mem, tabs[q], f, v) <==> q == p {
      assert SlotOk(k.mem, tabs[q], role, q, v);
    }
  }

  lemma SharersAround(lay: Layout, mem: Memory, m: Memory, tabs: TableMap, p: int, v: nat, f: nat, pn: nat, u: nat)
    requires p in tabs && v < 1024 && u < 1024 && f < 512 && pn < 512 && pn != f
    requires Slot(mem, tabs[p], v) == Full(f) && SlotUpdated(lay, mem, m, tabs, p, v, ReadOnly(f))
    ensures Sharers(m, tabs, pn, u) == Sharers(mem, tabs, pn, u)
  {
    hide Full, ReadOnly, Frame, PteFlags, Present, Writable, UserOk;
    EntryForms(f);
    EntryForms(pn);
    hide KernelTableOk, Wired, Slot;
    forall q | q in tabs ensures Shares(m, tabs[q], pn, u) == Shares(mem, tabs[q], pn, u) {
    }
  }

  /** Slots `[v, w)` became read-only entries for the frames they had; nothing else
      changed but the table itself. */
  ghost predicate Downgraded(mem: Memory, m: Memory, t: Table, v: nat, w: nat) {
    && (forall u :: 0 <= u < 1024 ==>
          if v <= u < w then Frame(Slot(mem, t, u)) < 512 && Slot(m, t, u) == ReadOnly(Frame(Slot(mem, t, u)))
          else Slot(m, t, u) == Slot(mem, t, u))
    && (forall x :: 0 <= x < 512 && !t.Has(x) ==> m[x] == mem[x])
  }

  lemma DowngradeStep(lay: Layout, k: VM, tabs: TableMap, role: Roles, p: int, v: nat, f: nat) returns (k': VM)
    requires Inv(lay, k, tabs, role) && p in tabs && 256 <= v < 768 && f < 512
    requires Slot(k.mem, tabs[p], v) == Full(f)
    ensures Lookup(k.mem, tabs[p].l1, v * 4096).pa == f * 4096
    ensures MapPage(k.mem, tabs[p].l1, v * 4096, f * 4096, 5) == Ok((k'.mem, 0)) && k'.info == k.info
    ensures SlotUpdated(lay, k.mem, k'.mem, tabs, p, v, ReadOnly(f))
    ensures forall x :: 0 <= x < 512 && !tabs[p].Has(x) ==> k'.mem[x] == k.mem[x]
  {
    hide Inv, Wired, Slot, WriteSlot, MapPage, SlotUpdated, Full, ReadOnly, MapArgs, LeafEntry, Decode, Lookup;
    LiveWired(lay, k, tabs, role, p);
    UserLookup(k.mem, tabs[p], v);
    DecodeForms(f);
    FormArgs(v, f);
    MapPageWired(k.mem, tabs[p], v, f * 4096, 5);
    SlotWrite(lay, k, tabs, role, p, v, ReadOnly(f));
    WriteSlotPages(k.mem, tabs[p], v, ReadOnly(f));
    k' := VM(WriteSlot(k.mem, tabs[p], v, ReadOnly(f)), k.info);
  }

  lemma DowngradeMore(lay: Layout, mem: Memory, m1: Memory, m: Memory, tabs: TableMap, p: int, v: nat, w: nat, f: nat)
    requires p in tabs && v < w <= 1024 && f < 512 && Slot(mem, tabs[p], v) == Full(f)
    requires SlotUpdated(lay, mem, m1, tabs, p, v, ReadOnly(f))
    requires forall x :: 0 <= x < 512 && !tabs[p].Has(x) ==> m1[x] == mem[x]
    requires Downgraded(m1, m, tabs[p], v + 1, w)
    ensures Downgraded(mem, m, tabs[p], v, w)
  {
    EntryForms(f);
    hide Wired, Slot, KernelTableOk, Full, ReadOnly, Frame;
    var t := tabs[p];
    forall u | 0 <= u < 1024
      ensures if v <= u < w then Frame(Slot(mem, t, u)) < 512 && Slot(m, t, u) == ReadOnly(Frame(Slot(mem, t, u)))
              else Slot(m, t, u) == Slot(mem, t, u)
    {
    }
  }

  lemma {:induction false} MakeReadOnlyMeaning(lay: Layout, k: VM, tabs: TableMap, role: Roles, p: int, v: nat,
                                               w: nat, end: nat)
    returns (k': VM, role': Roles)
    requires Inv(lay, k, tabs, role) && p in tabs && 256 <= v <= w <= 768 && end <= 768 * 4096
    requires w == (if v * 4096 >= end then v else (end + 4095) / 4096)
    requires forall u :: v <= u < w ==>
               Frame(Slot(k.mem, tabs[p], u)) < 512 && Slot(k.mem, tabs[p], u) == Full(Frame(Slot(k.mem, tabs[p], u)))
    ensures MakeReadOnly(k.mem, tabs[p].l1, v * 4096, end) == Ok(k'.mem) && k'.info == k.info
    ensures Inv(lay, k', tabs, role')
    ensures Exact(k, tabs, role) ==> Exact(k', tabs, role')
    ensures Owned(k, tabs, role) ==> Owned(k', tabs, role')
    ensures Downgraded(k.mem, k'.mem, tabs[p], v, w) && OthersPages(k.info, k.mem, k'.mem, p)
    decreases w - v
  {
    hide Inv, Exact, Owned, Slot, MapPage, SlotUpdated, Lookup, Full, ReadOnly, Frame, OthersPages, InUseRecords;
    if v == w {
      OthersSelf(k.info, k.mem, p);
      return k, role;
    }
    var f := Frame(Slot(k.mem, tabs[p], v));
    var k1 := DowngradeStep(lay, k, tabs, role, p, v, f);
    DowngradeKeeps(lay, k, k1, tabs, role, p, v, f);
    OwnTable(lay, k, k1.mem, tabs, role, p);
    forall u | v + 1 <= u < w ensures Slot(k1.mem, tabs[p], u) == Slot(k.mem, tabs[p], u) {
      UpdatedElsewhere(lay, k.mem, k1.mem, tabs, p, v, ReadOnly(f), u);
    }
    k', role' := MakeReadOnlyMeaning(lay, k1, tabs, role[f := Shared(v)], p, v + 1, w, end);
    DowngradeMore(lay, k.mem, k1.mem, k'.mem, tabs, p, v, w, f);
    RecordsSelf(k.info);
    OthersTrans(k.info, k.info, k.mem, k1.mem, k'.mem, p);
  }
}
