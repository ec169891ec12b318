/** What the invariant means for the kernel's promises, stated through lookups
    and page records only. */
module Properties {
  import opened X86
  import opened Paging
  import opened Tables
  import opened Spaces
  import opened Alloc
  import opened Duplicate
  import opened Forks
  import opened Activation
  import opened Kernel
  import opened Steps

  // --------------------------------------------------------------- statements

  function Root(s: State, p: nat): nat
    requires p < 16
  {
    s.procs[p].pagetable
  }

  /** The page number process `p` sees behind virtual page `v`; -1 if unmapped. */
  function PageBehind(s: State, p: nat, v: nat): int
    requires p < 16 && v < 1024
  {
    Lookup(s.vm.mem, Root(s, p), v * 4096).pn
  }

  function PermBehind(s: State, p: nat, v: nat): Perm
    requires p < 16 && v < 1024
  {
    Lookup(s.vm.mem, Root(s, p), v * 4096).perm
  }

  function TablesOf(s: State, p: nat): Table
    requires p < 16
  {
    TableAt(s.vm.mem, Root(s, p))
  }

  datatype Ref = MapRef(pid: int, vpn: nat) | TableRef(pid: int, level: nat)

  /** Live user-range mappings of page `pn`. */
  function MapRefs(s: State, pn: nat): set<Ref> {
    set p: nat, v: nat | p < 16 && 256 <= v < 768 && Live(s, p) && PageBehind(s, p, v) == pn :: MapRef(p, v)
  }

  /** Live page tables that use page `pn`. */
  function TableRefs(s: State, pn: nat): set<Ref> {
    set p: nat, l: nat | p < 16 && l < 5 && Live(s, p) && TablesOf(s, p).Nth(l) == pn :: TableRef(p, l)
  }

  /** Refcount exactness for one page. */
  ghost predicate CountExact(s: State, pn: nat)
    requires pn < 512
  {
    s.vm.info[pn].refcount == |MapRefs(s, pn)| + |TableRefs(s, pn)| <= 15
  }

  /** ... and what is left of it when requests may be ill-formed. */
  ghost predicate CountCovers(s: State, pn: nat)
    requires pn < 512
  {
    s.vm.info[pn].refcount >= |MapRefs(s, pn)| + |TableRefs(s, pn)|
  }

  /** Five distinct table pages, recorded to the process, mapped by nobody. */
  ghost predicate TablesPrivate(s: State, p: nat)
    requires p < 16
  {
    var t := TablesOf(s, p);
    && t.Distinct()
    && forall l: nat :: l < 5 ==>
         && s.vm.info[t.Nth(l)] == PageInfo(p, 1)
         && forall q: nat, v: nat :: q < 16 && 256 <= v < 768 && Live(s, q) ==> PageBehind(s, q, v) != t.Nth(l)
  }

  /** A page behind a writable user mapping has one owner and one reference. */
  ghost predicate WritablePrivate(s: State, p: nat, v: nat)
    requires p < 16 && v < 1024
  {
    Writable(PermBehind(s, p, v)) ==>
      var pn := PageBehind(s, p, v);
      && 0 < pn < 512 && s.vm.info[pn] == PageInfo(p, 1)
      && forall q: nat, u: nat :: q < 16 && 256 <= u < 768 && Live(s, q) && PageBehind(s, q, u) == pn ==>
        q == p && u == v
  }

  /** Below PROC_START_ADDR: identity, no user access but to the console. */
  ghost predicate KernelSpace(s: State, p: nat)
    requires p < 16
  {
    forall a: Va :: a < PROC_START_ADDR ==>
      Lookup(s.vm.mem, Root(s, p), a) == VaMapping(a / 4096, a, if a / 4096 == 0xB8 then 7 else 3)
  }

  /** Lookup reports the permissions the processor enforces. */
  ghost predicate AgreesWithHardware(s: State, p: nat)
    requires p < 16
  {
    forall a: Va :: Present(E4(s.vm.mem, Root(s, p), a)) ==>
      && (Writable(Lookup(s.vm.mem, Root(s, p), a).perm) <==> HardwareWritable(s.vm.mem, Root(s, p), a))
      && (UserOk(Lookup(s.vm.mem, Root(s, p), a).perm) <==> HardwareUser(s.vm.mem, Root(s, p), a))
  }

  /** What pageinfo_init withholds, by physical address: the kernel's image and stack
      page are on record to the kernel (-2), page 0 and the I/O range are reserved
      (-1), each with one reference. */
  predicate Withheld(lay: Layout, x: nat, i: PageInfo) {
    && (AtKernel(lay, x) ==> i == PageInfo(-2, 1))
    && (AtReserved(x) ==> i == PageInfo(-1, 1))
  }

  /** Inside the kernel's image, or its stack page. */
  predicate AtKernel(lay: Layout, x: nat) {
    0x40000 <= x * 4096 < lay.end || x * 4096 == 0x7F000
  }

  /** Page 0, or between 640 KB and 1 MB. */
  predicate AtReserved(x: nat) {
    x == 0 || 0xA0000 <= x * 4096 < 0x100000
  }

  /** The withheld pages keep their records, and no live process maps them in its user
      range or has one in its table. */
  ghost predicate KernelPagesSafe(s: State) {
    forall x: nat :: x < 512 ==>
      && Withheld(s.lay, x, s.vm.info[x])
      && (AtKernel(s.lay, x) || AtReserved(x) ==>
            forall p: nat :: p < 16 && Live(s, p) ==>
              !TablesOf(s, p).Has(x) && forall v: nat :: 256 <= v < 1024 ==> PageBehind(s, p, v) != x)
  }

  // ------------------------------------------------------------------- proofs

  lemma WithheldRecord(lay: Layout, x: nat)
    requires x < 512 && lay.Valid()
    ensures Withheld(lay, x, InitInfo(lay, x))
    ensures AtKernel(lay, x) || AtReserved(x) <==> IsSystem(lay, x)
    ensures !IsSystem(lay, x) ==> InitInfo(lay, x) == PageInfo(0, 0)
  {
  }

  lemma KernelPagesAreSafe(s: State, tabs: TableMap, role: Roles)
    requires KInv(s, tabs, role)
    ensures KernelPagesSafe(s)
  {
    assert s.lay.Valid();
    hide Inv, Withheld, IsSystem, InitInfo, TablesOf, PageBehind, ProcsOk;
    forall x: nat | x < 512
      ensures Withheld(s.lay, x, s.vm.info[x]) || !IsSystem(s.lay, x)
      ensures IsSystem(s.lay, x) ==> forall p: nat :: p < 16 && Live(s, p) ==>
                !TablesOf(s, p).Has(x) && forall v: nat :: 256 <= v < 1024 ==> PageBehind(s, p, v) != x
    {
      WithheldRecord(s.lay, x);
      if IsSystem(s.lay, x) {
        SystemKept(s, tabs, role, x);
        forall p: nat | p < 16 && Live(s, p)
          ensures !TablesOf(s, p).Has(x) && forall v: nat :: 256 <= v < 1024 ==> PageBehind(s, p, v) != x
        {
          SystemApart(s, tabs, role, x, p);
        }
      }
    }
    forall x: nat | x < 512 ensures Withheld(s.lay, x, s.vm.info[x]) {
      WithheldRecord(s.lay, x);
      if !IsSystem(s.lay, x) {
        NothingWithheld(s.lay, x, s.vm.info[x]);
      }
    }
    forall x: nat | x < 512
      ensures AtKernel(s.lay, x) || AtReserved(x) <==> IsSystem(s.lay, x)
    {
      WithheldRecord(s.lay, x);
    }
  }

  lemma NothingWithheld(lay: Layout, x: nat, i: PageInfo)
    requires x < 512 && lay.Valid() && !IsSystem(lay, x)
    ensures Withheld(lay, x, i)
  {
  }

  lemma SystemKept(s: State, tabs: TableMap, role: Roles, x: nat)
    requires KInv(s, tabs, role) && x < 512 && IsSystem(s.lay, x)
    ensures role[x] == System && s.vm.info[x] == InitInfo(s.lay, x)
  {
    assert PageOk(s.lay, s.vm, tabs, role, x);
  }

  lemma SystemApart(s: State, tabs: TableMap, role: Roles, x: nat, p: nat)
    requires KInv(s, tabs, role) && x < 512 && role[x] == System && p < 16 && Live(s, p)
    ensures !TablesOf(s, p).Has(x) && forall v: nat :: 256 <= v < 1024 ==> PageBehind(s, p, v) != x
  {
    hide Inv, TablesOf, PageBehind;
    Behind(s, tabs, role, p, 0);
    TableInUse(s.lay, s.vm, tabs, role, p);
    forall v: nat | 256 <= v < 1024 ensures PageBehind(s, p, v) != x {
      BehindRole(s, tabs, role, p, v);
    }
  }

  /** A user slot of a live process, seen through Lookup. */
  lemma Behind(s: State, tabs: TableMap, role: Roles, p: nat, v: nat)
    requires KInv(s, tabs, role) && p < 16 && Live(s, p) && v < 1024
    ensures p in tabs && Lookup(s.vm.mem, Root(s, p), v * 4096) == Decode(Slot(s.vm.mem, tabs[p], v), 0)
    ensures TablesOf(s, p) == tabs[p]
  {
    LiveWired(s.lay, s.vm, tabs, role, p);
    hide Inv, Wired, Lookup, Slot, TableAt;
    UserLookup(s.vm.mem, tabs[p], v);
    TableAtWired(s.vm.mem, tabs[p]);
  }

  /** Which page that is, by role. */
  lemma BehindRole(s: State, tabs: TableMap, role: Roles, p: nat, v: nat)
    requires KInv(s, tabs, role) && p < 16 && Live(s, p) && 256 <= v < 1024
    ensures p in tabs
    ensures var pn, perm, e := PageBehind(s, p, v), PermBehind(s, p, v), Slot(s.vm.mem, tabs[p], v);
            || (pn == -1 && !Writable(perm) && e == 0)
            || (0 < pn < 512 && role[pn] == Private(p, v) && Writable(perm) && e == Full(pn))
            || (0 < pn < 512 && role[pn] == Shared(v) && !Writable(perm) && e == ReadOnly(pn))
  {
    Behind(s, tabs, role, p, v);
    assert SystemZero(s, tabs, role) by { assert PageOk(s.lay, s.vm, tabs, role, 0); }
    assert !Writable(0) && Writable(7) && !Writable(5) by { FormArgs(0, 0); }
    hide Inv, Lookup, Slot, Decode, Full, ReadOnly, Writable;
    var f := ParentSlot(s.lay, s.vm, tabs, role, p, v);
    DecodeForms(f);
  }

  ghost predicate SystemZero(s: State, tabs: TableMap, role: Roles) {
    role[0] == System
  }

  lemma PrivateSlot(s: State, tabs: TableMap, role: Roles, pn: nat)
    requires KInv(s, tabs, role) && pn < 512
    ensures role[pn].Private? ==>
              role[pn].pid in tabs && role[pn].vpn < 1024
                && Slot(s.vm.mem, tabs[role[pn].pid], role[pn].vpn) == Full(pn)
  {
    assert PageOk(s.lay, s.vm, tabs, role, pn);
  }

  /** One reference, by the role of the page. */
  lemma RefByRole(s: State, tabs: TableMap, role: Roles, pn: nat, p: nat, v: nat)
    requires KInv(s, tabs, role) && 0 < pn < 512 && p < 16 && 256 <= v < 768 && Live(s, p)
    ensures PageBehind(s, p, v) == pn
       <==> role[pn] == Private(p, v) || (role[pn] == Shared(v) && p in Sharers(s.vm.mem, tabs, pn, v))
  {
    hide KInv, PageBehind, PermBehind, Slot, Full, ReadOnly, Frame, PteFlags, Present, Writable, UserOk;
    BehindRole(s, tabs, role, p, v);
    PrivateSlot(s, tabs, role, pn);
    EntryForms(pn);
    var b := PageBehind(s, p, v);
    if 0 < b < 512 {
      EntryForms(b);
    }
  }

  lemma MapRefsByRole(s: State, tabs: TableMap, role: Roles, pn: nat)
    requires KInv(s, tabs, role) && 0 < pn < 512
    ensures !role[pn].Private? && !role[pn].Shared? ==> MapRefs(s, pn) == {}
    ensures role[pn].Private? ==> MapRefs(s, pn) <= {MapRef(role[pn].pid, role[pn].vpn)}
    ensures role[pn].Private? && role[pn].vpn < 768 ==> MapRefs(s, pn) == {MapRef(role[pn].pid, role[pn].vpn)}
    ensures role[pn].Shared? ==>
              MapRefs(s, pn) == set q | q in Sharers(s.vm.mem, tabs, pn, role[pn].home) :: MapRef(q, role[pn].home)
  {
    RolePids(s, tabs, role, pn);
    hide KInv, PageBehind, Sharers, Live;
    forall p: nat, v: nat | p < 16 && 256 <= v < 768 && Live(s, p)
      ensures PageBehind(s, p, v) == pn
         <==> role[pn] == Private(p, v) || (role[pn] == Shared(v) && p in Sharers(s.vm.mem, tabs, pn, v))
    {
      RefByRole(s, tabs, role, pn, p, v);
    }
  }

  /** The processes a role speaks of are live. */
  lemma RolePids(s: State, tabs: TableMap, role: Roles, pn: nat)
    requires KInv(s, tabs, role) && pn < 512
    ensures role[pn].Private? ==> Live(s, role[pn].pid) && 256 <= role[pn].vpn
    ensures role[pn].Shared? ==>
              256 <= role[pn].home < 768 && forall q :: q in Sharers(s.vm.mem, tabs, pn, role[pn].home) ==> Live(s, q)
  {
    assert PageOk(s.lay, s.vm, tabs, role, pn);
    hide Inv, Shares;
  }

  lemma TableRefsByRole(s: State, tabs: TableMap, role: Roles, pn: nat)
    requires KInv(s, tabs, role) && pn < 512
    ensures TableRefs(s, pn) == if role[pn].TablePage? then {TableRef(role[pn].pid, role[pn].level)} else {}
  {
    assert PageOk(s.lay, s.vm, tabs, role, pn);
    forall p: nat | p < 16 && Live(s, p)
      ensures p in tabs && TablesOf(s, p) == tabs[p]
      ensures forall l: nat :: l < 5 ==> role[tabs[p].Nth(l)] == TablePage(p, l)
    {
      Behind(s, tabs, role, p, 0);
      assert SpaceOk(s.vm.mem, tabs, role, p);
    }
    hide Inv, TablesOf, PageOk;
  }

  lemma ImageCard(a: set<int>, v: nat)
    ensures |set q | q in a :: MapRef(q, v)| == |a|
  {
    if a != {} {
      var x := SomeElement(a);
      ImageCard(a - {x}, v);
      assert (set q | q in a :: MapRef(q, v)) == (set q | q in a - {x} :: MapRef(q, v)) + {MapRef(x, v)};
    }
  }

  /** Page 0 and the other pages pageinfo_init reserves are outside the counts. */
  lemma CountsByRole(s: State, tabs: TableMap, role: Roles, pn: nat)
    requires KInv(s, tabs, role) && pn < 512 && !IsSystem(s.lay, pn)
    ensures CountCovers(s, pn)
    ensures Exact(s.vm, tabs, role) ==> CountExact(s, pn)
  {
    assert PageOk(s.lay, s.vm, tabs, role, pn);
    MapRefsByRole(s, tabs, role, pn);
    TableRefsByRole(s, tabs, role, pn);
    if Exact(s.vm, tabs, role) {
      assert ExactAt(s.vm, tabs, role, pn);
      ExactSmall(s.lay, s.vm, tabs, role, pn);
      if role[pn].Private? && role[pn].vpn >= 768 {
        EntryForms(pn);
        assert false;
      }
    }
    hide Inv, MapRefs, TableRefs, Slot, Sharers, Exact;
    match role[pn] {
      case Shared(v) =>
        ImageCard(Sharers(s.vm.mem, tabs, pn, v), v);
      case Private(p, v) =>
        SubsetCard(MapRefs(s, pn), {MapRef(p, v)});
      case _ =>
    }
  }

  /** Ownership: table pages and pages behind writable mappings. */
  lemma TablesArePrivate(s: State, tabs: TableMap, role: Roles, p: nat)
    requires KInv(s, tabs, role) && p < 16 && Live(s, p)
    ensures TablesPrivate(s, p)
  {
    Behind(s, tabs, role, p, 0);
    TableInUse(s.lay, s.vm, tabs, role, p);
    var t := tabs[p];
    forall l: nat | l < 5
      ensures s.vm.info[t.Nth(l)] == PageInfo(p, 1)
      ensures forall q: nat, v: nat :: q < 16 && 256 <= v < 768 && Live(s, q) ==> PageBehind(s, q, v) != t.Nth(l)
    {
      assert t.Has(t.Nth(l));
      forall q: nat, v: nat | q < 16 && 256 <= v < 768 && Live(s, q) ensures PageBehind(s, q, v) != t.Nth(l) {
        BehindRole(s, tabs, role, q, v);
      }
    }
  }

  lemma WritableIsPrivate(s: State, tabs: TableMap, role: Roles, p: nat, v: nat)
    requires KInv(s, tabs, role) && p < 16 && Live(s, p) && 256 <= v < 768
    ensures WritablePrivate(s, p, v)
  {
    BehindRole(s, tabs, role, p, v);
    if Writable(PermBehind(s, p, v)) {
      var pn := PageBehind(s, p, v);
      assert PageOk(s.lay, s.vm, tabs, role, pn);
      hide Inv, PageBehind, PermBehind, Slot;
      forall q: nat, u: nat | q < 16 && 256 <= u < 768 && Live(s, q) && PageBehind(s, q, u) == pn
        ensures q == p && u == v
      {
        BehindRole(s, tabs, role, q, u);
      }
    }
  }

  lemma KernelSpaceKept(s: State, tabs: TableMap, role: Roles, p: nat)
    requires KInv(s, tabs, role) && p < 16 && Live(s, p)
    ensures KernelSpace(s, p)
  {
    LiveWired(s.lay, s.vm, tabs, role, p);
    hide Wired, Lookup, KernelTableOk, PagesOk, SpacesOk;
    forall v | 0 <= v < 256 ensures Slot(s.vm.mem, tabs[p], v) == LowEntry(v) {
      assert SlotOk(s.vm.mem, tabs[p], role, p, v);
    }
    hide SlotsOk;
    forall a: Va | a < PROC_START_ADDR
      ensures Lookup(s.vm.mem, tabs[p].l1, a) == VaMapping(a / 4096, a, if a / 4096 == 0xB8 then 7 else 3)
    {
      LowLookup(s.vm.mem, tabs[p], a);
    }
  }

  lemma HardwareAgreement(s: State, tabs: TableMap, role: Roles, p: nat)
    requires KInv(s, tabs, role) && p < 16 && Live(s, p)
    ensures AgreesWithHardware(s, p)
  {
    LiveWired(s.lay, s.vm, tabs, role, p);
    hide Inv, Lookup, Wired, WellFormed, E4, HardwareWritable, HardwareUser, Present, Writable, UserOk;
    WiredWellFormed(s.vm.mem, tabs[p]);
    forall a: Va | Present(E4(s.vm.mem, tabs[p].l1, a))
      ensures Writable(Lookup(s.vm.mem, tabs[p].l1, a).perm) <==> HardwareWritable(s.vm.mem, tabs[p].l1, a)
      ensures UserOk(Lookup(s.vm.mem, tabs[p].l1, a).perm) <==> HardwareUser(s.vm.mem, tabs[p].l1, a)
    {
      LookupAgreesWithHardware(s.vm.mem, tabs[p].l1, a);
    }
  }

  // ---------------------------------------------------------------- isolation

  /** Live process `q` keeps its registers, every mapping, and every word behind a
      mapping at or above PROC_START_ADDR, in the user range or beyond. */
  ghost predicate Undisturbed(s: State, s': State, q: nat)
    requires q < 16
  {
    && s'.procs[q] == s.procs[q]
    && (forall a: Va :: Lookup(s'.vm.mem, Root(s, q), a) == Lookup(s.vm.mem, Root(s, q), a))
    && (forall v :: 256 <= v < 1024 && PageBehind(s, q, v) != -1 ==>
          && 0 < PageBehind(s, q, v) < 512
          && s'.vm.mem[PageBehind(s, q, v)] == s.vm.mem[PageBehind(s, q, v)])
  }

  /** What a user store at `va` may do: change one page, which is the console or a
      page that only the storing process references and only at `va`'s page; never
      a word of a page table. */
  ghost predicate StoreConfined(s: State, s': State, va: Va)
    requires s.current < 16
  {
    && (forall a: Va :: Lookup(s'.vm.mem, Root(s, s.current), a) == Lookup(s.vm.mem, Root(s, s.current), a))
    && (forall x :: 0 <= x < 512 && InTable(s, x) ==> s'.vm.mem[x] == s.vm.mem[x])
    && s' == s.(vm := VM(s'.vm.mem, s.vm.info))
    && exists f: nat :: ChangesOnly(s, s', va, f)
  }

  /** Page `x` is part of the kernel's table or of a live process's. */
  ghost predicate InTable(s: State, x: int) {
    s.lay.KernelTable().Has(x) || exists q: nat :: q < 16 && Live(s, q) && TablesOf(s, q).Has(x)
  }

  /** Page `f` alone is written, and is the console or private to the process. */
  ghost predicate ChangesOnly(s: State, s': State, va: Va, f: nat) {
    && f < 512 && (forall x :: 0 <= x < 512 && x != f ==> s'.vm.mem[x] == s.vm.mem[x])
    && (f == 0xB8 || (s.vm.info[f] == PageInfo(s.current, 1) && MapRefs(s, f) <= {MapRef(s.current, va / 4096)}))
  }

  /** A user store by the current process is confined, and disturbs no other live
      process. */
  lemma Isolation(s: State, s': State, tabs: TableMap, role: Roles, va: Va, w: Word)
    requires KInv(s, tabs, role) && Enabled(s, Store(va, w)) && Step(s, Store(va, w)) == Ok(s')
    ensures StoreConfined(s, s', va)
    ensures forall q: nat :: q < 16 && Live(s, q) && q != s.current ==> Undisturbed(s, s', q)
  {
    hide Inv, Step, Lookup, Slot, PageBehind, TablesOf, KernelTableOk, Enabled, SlotsSame, MapRefs, Wired;
    var p := s.current;
    var f := StoreChanges(s, s', tabs, role, va, w);
    assert ChangesOnly(s, s', va, f);
    forall q: nat, a: Va | q < 16 && Live(s, q)
      ensures Lookup(s'.vm.mem, Root(s, q), a) == Lookup(s.vm.mem, Root(s, q), a) {
      SameLookups(s, s', tabs, role, q, a);
    }
    forall q: nat, v: nat | q < 16 && 256 <= v < 1024 && Live(s, q) && q != p && PageBehind(s, q, v) != -1
      ensures 0 < PageBehind(s, q, v) < 512 && PageBehind(s, q, v) != f
    {
      BehindRole(s, tabs, role, q, v);
    }
    forall x | 0 <= x < 512 && s.lay.KernelTable().Has(x) ensures x != f {
      KernelPagesOf(s, tabs, role, x);
    }
    forall x, q: nat | 0 <= x < 512 && q < 16 && Live(s, q) && TablesOf(s, q).Has(x) ensures x != f {
      Behind(s, tabs, role, q, 0);
      TableInUse(s.lay, s.vm, tabs, role, q);
    }
  }

  /** The one page a store changes. */
  lemma StoreChanges(s: State, s': State, tabs: TableMap, role: Roles, va: Va, w: Word) returns (f: nat)
    requires KInv(s, tabs, role) && Enabled(s, Store(va, w)) && Step(s, Store(va, w)) == Ok(s')
    ensures f < 512 && Live(s, s.current) && s' == s.(vm := VM(s'.vm.mem, s.vm.info))
    ensures (f == 0xB8 && role[f] == System) || role[f] == Private(s.current, va / 4096)
    ensures f == 0xB8 || (s.vm.info[f] == PageInfo(s.current, 1) && MapRefs(s, f) <= {MapRef(s.current, va / 4096)})
    ensures forall x :: 0 <= x < 512 && x != f ==> s'.vm.mem[x] == s.vm.mem[x]
    ensures SlotsSame(s.lay, s.vm.mem, s'.vm.mem, tabs)
  {
    var p := s.current;
    assert Live(s, p) && p in tabs;
    f := Frame(E4(s.vm.mem, tabs[p].l1, va));
    hide Inv, E4, UserWritable, Slot, Wired, KernelTableOk, MapRefs, SlotsSame, Exact, Owned;
    StoreTarget(s.lay, s.vm, tabs, role, p, va);
    StoreKeeps(s.lay, s.vm, tabs, role, p, va, w);
    if f != 0xB8 {
      ZeroSystem(s, tabs, role);
      PrivateRecord(s, tabs, role, f);
      MapRefsByRole(s, tabs, role, f);
    }
  }

  lemma PrivateRecord(s: State, tabs: TableMap, role: Roles, f: nat)
    requires KInv(s, tabs, role) && f < 512
    ensures role[f].Private? ==> s.vm.info[f] == PageInfo(role[f].pid, 1)
  {
    assert PageOk(s.lay, s.vm, tabs, role, f);
  }

  lemma ZeroSystem(s: State, tabs: TableMap, role: Roles)
    requires KInv(s, tabs, role)
    ensures role[0] == System
  {
    SystemRole(s.lay, s.vm, tabs, role, 0);
  }

  lemma KernelPagesOf(s: State, tabs: TableMap, role: Roles, x: nat)
    requires KInv(s, tabs, role) && s.lay.KernelTable().Has(x)
    ensures x < 512 && x != 0xB8 && role[x] == System
  {
    KernelPages(s.lay, s.vm.mem, x);
    SystemRole(s.lay, s.vm, tabs, role, x);
  }

  lemma SameLookups(s: State, s': State, tabs: TableMap, role: Roles, q: nat, a: Va)
    requires KInv(s, tabs, role) && q < 16 && Live(s, q) && SlotsSame(s.lay, s.vm.mem, s'.vm.mem, tabs)
    ensures Lookup(s'.vm.mem, Root(s, q), a) == Lookup(s.vm.mem, Root(s, q), a)
  {
    LiveWired(s.lay, s.vm, tabs, role, q);
    hide Inv, Wired, Slot, Lookup, KernelTableOk;
    LookupWired(s.vm.mem, tabs[q], a);
    LookupWired(s'.vm.mem, tabs[q], a);
  }
}
