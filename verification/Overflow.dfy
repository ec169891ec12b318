/** The reference counts are signed bytes. Requests that leave a page's count too
    high can bring it to 127, and the next fork of a process that maps the page
    read-only wraps it round. */
module Overflow {
  import opened X86
  import opened Paging
  import opened Tables
  import opened Spaces
  import opened Duplicate
  import opened Forks
  import opened Kernel
  import opened Steps
  import opened Properties
  import opened ForkProperties

  // ------------------------------------------------------------------ simulation

  /** `i` runs one ahead of `j` on the pages of `d`, modulo the width of the count,
      and agrees with it elsewhere. */
  ghost predicate Ahead(i: Info, j: Info, d: set<nat>) {
    forall x: nat :: x < 512 ==>
      if x in d then 1 <= j[x].refcount <= 127 && i[x] == PageInfo(j[x].owner, ToInt8(j[x].refcount + 1))
      else i[x] == j[x]
  }

  lemma AheadZero(i: Info, j: Info, d: set<nat>, x: nat)
    requires Ahead(i, j, d) && x < 512
    ensures i[x].refcount == 0 <==> j[x].refcount == 0
  {
  }

  lemma {:induction false} AheadFind(i: Info, j: Info, d: set<nat>, p: nat)
    requires Ahead(i, j, d) && p <= 512
    ensures FindFree(i, p) == FindFree(j, p)
    decreases 512 - p
  {
    if p < 512 {
      AheadZero(i, j, d, p);
      hide Ahead;
      AheadFind(i, j, d, p + 1);
    }
  }

  lemma AheadAlloc(i: Info, j: Info, d: set<nat>, pid: int)
    requires Ahead(i, j, d)
    ensures var (i', p) := AllocPage(i, pid);
            var (j', q) := AllocPage(j, pid);
            p == q && Ahead(i', j', d)
  {
    AheadFind(i, j, d, 1);
    hide FindFree, ToInt8;
  }

  lemma AheadFive(i: Info, j: Info, d: set<nat>, pid: int)
    requires Ahead(i, j, d)
    ensures var (i', t) := AllocFive(i, pid);
            var (j', u) := AllocFive(j, pid);
            t == u && Ahead(i', j', d)
  {
    hide AllocPage, Ahead;
    var i1, j1 := AllocPage(i, pid).0, AllocPage(j, pid).0;
    AheadAlloc(i, j, d, pid);
    var i2, j2 := AllocPage(i1, pid).0, AllocPage(j1, pid).0;
    AheadAlloc(i1, j1, d, pid);
    var i3, j3 := AllocPage(i2, pid).0, AllocPage(j2, pid).0;
    AheadAlloc(i2, j2, d, pid);
    var i4, j4 := AllocPage(i3, pid).0, AllocPage(j3, pid).0;
    AheadAlloc(i3, j3, d, pid);
    AheadAlloc(i4, j4, d, pid);
  }

  lemma AheadDuplicate(k: VM, l: VM, d: set<nat>, src: nat, pid: int, l1: VM, root: nat)
    requires k.mem == l.mem && Ahead(k.info, l.info, d) && DuplicatePagetable(l, src, pid) == Ok((l1, root))
    ensures DuplicatePagetable(k, src, pid) == Ok((VM(l1.mem, AllocFive(k.info, pid).0), root))
    ensures Ahead(AllocFive(k.info, pid).0, l1.info, d)
  {
    AheadFive(k.info, l.info, d, pid);
    AllocInstalled(k.info, pid);
    AllocInstalled(l.info, pid);
    hide AllocFive, CopyLow, Wire, ClearFive, Ahead;
  }

  lemma AheadInc(i: Info, j: Info, d: set<nat>, pn: int)
    requires Ahead(i, j, d) && (0 <= pn < 512 ==> 0 <= j[pn].refcount < 127)
    ensures Ahead(IncRef(i, pn), IncRef(j, pn), d)
  {
    if 0 <= pn < 512 {
      var c := j[pn].refcount;
      assert ToInt8(c + 1) == c + 1;
      assert ToInt8(ToInt8(c + 1) + 1) == ToInt8(c + 1 + 1);
      hide ToInt8;
    }
  }

  /** One iteration does the same to both. */
  lemma AheadPage(k: VM, l: VM, d: set<nat>, parent: nat, child: nat, pid: int, v: nat, l': VM) returns (k': VM)
    requires k.mem == l.mem && Ahead(k.info, l.info, d) && v < 768 && ForkPage(l, parent, child, pid, v) == Ok(l')
    requires var pn := Lookup(l.mem, parent, v * 4096).pn; 0 <= pn < 512 ==> 0 <= l.info[pn].refcount < 127
    ensures ForkPage(k, parent, child, pid, v) == Ok(k') && k'.mem == l'.mem && Ahead(k'.info, l'.info, d)
  {
    hide Lookup, MapPage, AllocPage, Writable, Ahead, IncRef;
    AheadAlloc(k.info, l.info, d, pid);
    AheadInc(k.info, l.info, d, Lookup(l.mem, parent, v * 4096).pn);
    k' := ForkPage(k, parent, child, pid, v).value;
  }

  /** The page a live parent shows at `v` has room in the slower run. */
  lemma RoomAhead(lay: Layout, k0: VM, k: VM, tabs: TableMap, role0: Roles, role: Roles, p: int, c: int, v: nat)
    requires Forking(lay, k0, k, tabs, role0, role, p, c, v) && 256 <= v < 768
    ensures var pn := Lookup(k.mem, tabs[p].l1, v * 4096).pn; 0 <= pn < 512 ==> 0 <= k.info[pn].refcount < 127
  {
    hide Frame, PteFlags, Present, Writable, UserOk;
    LiveWired(lay, k, tabs, role, p);
    var f := ParentSlot(lay, k, tabs, role, p, v);
    var e := Slot(k.mem, tabs[p], v);
    ForkedParent(k0, k, role0, role, tabs[p], tabs[c], c, v);
    EntryForms(f);
    assert CanShare(k0, Slot(k0.mem, tabs[p], v));
    if e == ReadOnly(f) {
      SharedStart(k0, k, role0, role, tabs[p], tabs[c], c, v, f);
    }
    hide Inv, Wired, Lookup, Slot, Decode, Forked, Full, ReadOnly, Forking, RoomToShare;
    UserLookup(k.mem, tabs[p], v);
    DecodeForms(f);
  }

  lemma {:induction false} AheadPages(lay: Layout, k0: VM, l: VM, k: VM, d: set<nat>, tabs: TableMap, role0: Roles,
                                      role: Roles, p: int, c: int, v: nat)
    returns (l': VM, k': VM, role': Roles)
    requires Forking(lay, k0, l, tabs, role0, role, p, c, v) && 256 <= v <= 768
    requires |FreePages(l.info)| >= |ToCopy(k0.mem, tabs[p], v)|
    requires k.mem == l.mem && Ahead(k.info, l.info, d)
    ensures ForkPages(k, tabs[p].l1, tabs[c].l1, c, v) == Ok(k') && ForkPages(l, tabs[p].l1, tabs[c].l1, c, v) == Ok(l')
    ensures Forking(lay, k0, l', tabs, role0, role', p, c, 768)
    ensures k'.mem == l'.mem && Ahead(k'.info, l'.info, d)
    decreases 768 - v
  {
    hide Forking, Exact, Owned, ForkPage, ForkPages, FreePages, ToCopy, Ahead, Lookup;
    BothLive(lay, k0, l, tabs, role0, role, p, c, v);
    if v == 768 {
      ForkPagesEnd(k, tabs[p].l1, tabs[c].l1, c);
      ForkPagesEnd(l, tabs[p].l1, tabs[c].l1, c);
      return l, k, role;
    }
    var l1, role1 := ForkStep(lay, k0, l, tabs, role0, role, p, c, v);
    RoomAhead(lay, k0, l, tabs, role0, role, p, c, v);
    var k1 := AheadPage(k, l, d, tabs[p].l1, tabs[c].l1, c, v, l1);
    ForkPagesNext(k, k1, tabs[p].l1, tabs[c].l1, c, v);
    ForkPagesNext(l, l1, tabs[p].l1, tabs[c].l1, c, v);
    l', k', role' := AheadPages(lay, k0, l1, k1, d, tabs, role0, role1, p, c, v + 1);
  }

  // ------------------------------------------------------------- the lowered state

  predicate IsFull(k: VM, role: Roles, x: nat)
    requires x < 512
  {
    role[x].Shared? && k.info[x].refcount == 127
  }

  /** The same state with every full count one lower. */
  function Lowered(k: VM, role: Roles): (l: VM)
    ensures l.mem == k.mem
    ensures forall x :: 0 <= x < 512 ==>
              l.info[x] == if IsFull(k, role, x) then PageInfo(k.info[x].owner, 126) else k.info[x]
  {
    VM(k.mem, seq(512, x requires 0 <= x < 512 => if IsFull(k, role, x) then PageInfo(k.info[x].owner, 126)
      else k.info[x]))
  }

  function FullPages(k: VM, role: Roles): set<nat> {
    set x: nat | x < 512 && IsFull(k, role, x)
  }

  lemma LoweredInv(lay: Layout, k: VM, tabs: TableMap, role: Roles)
    requires Inv(lay, k, tabs, role)
    ensures Inv(lay, Lowered(k, role), tabs, role)
    ensures Ahead(k.info, Lowered(k, role).info, FullPages(k, role))
    ensures forall t: Table :: RoomToShare(Lowered(k, role), t) <== SharesKnown(k, role, t)
    ensures FreePages(Lowered(k, role).info) == FreePages(k.info)
  {
    var l := Lowered(k, role);
    hide Slot, Wired, KernelTableOk, SlotsOk, SpacesOk, Lowered;
    forall x | 0 <= x < 512 ensures PageOk(lay, l, tabs, role, x) {
      LoweredPage(lay, k, l, tabs, role, x);
    }
    assert forall x :: 0 <= x < 512 ==> (l.info[x].refcount == 0 <==> k.info[x].refcount == 0);
    forall t: Table | SharesKnown(k, role, t) ensures RoomToShare(l, t) {
      forall u | 256 <= u < 768 ensures CanShare(l, Slot(l.mem, t, u)) {
        var e := Slot(k.mem, t, u);
        if Present(e) && !Writable(e) && Frame(e) < 512 {
          assert PageOk(lay, k, tabs, role, Frame(e));
        }
      }
    }
  }

  /** Read-only entries of the table lead to shared pages. */
  ghost predicate SharesKnown(k: VM, role: Roles, t: Table) {
    forall u :: 256 <= u < 768 ==>
      var e := Slot(k.mem, t, u);
      Present(e) && !Writable(e) && Frame(e) < 512 ==> role[Frame(e)].Shared?
  }

  lemma LoweredPage(lay: Layout, k: VM, l: VM, tabs: TableMap, role: Roles, x: nat)
    requires Inv(lay, k, tabs, role) && x < 512 && l.mem == k.mem
    requires l.info[x] == if IsFull(k, role, x) then PageInfo(k.info[x].owner, 126) else k.info[x]
    ensures PageOk(lay, l, tabs, role, x)
  {
    assert PageOk(lay, k, tabs, role, x);
    hide Slot, Wired, KernelTableOk, SlotsOk, PagesOk;
    if IsFull(k, role, x) {
      forall p | p in Sharers(k.mem, tabs, x, role[x].home) ensures 1 <= p <= 15 {
        assert SpaceOk(k.mem, tabs, role, p);
      }
      PidsCard(Sharers(k.mem, tabs, x, role[x].home), 15);
    }
  }

  lemma LiveSharesKnown(lay: Layout, k: VM, tabs: TableMap, role: Roles, p: int)
    requires Inv(lay, k, tabs, role) && p in tabs
    ensures SharesKnown(k, role, tabs[p])
  {
    hide Slot;
    forall u | 256 <= u < 768
      ensures var e := Slot(k.mem, tabs[p], u);
              Present(e) && !Writable(e) && Frame(e) < 512 ==> role[Frame(e)].Shared?
    {
      assert SlotOk(k.mem, tabs[p], role, p, u);
      var f := Frame(Slot(k.mem, tabs[p], u));
      if f < 512 {
        EntryForms(f);
      }
    }
  }

  // ------------------------------------------------------------------- statement

  /** The lowered state forks as usual; this is where its loop starts. */
  lemma LoweredStart(lay: Layout, k: VM, l: VM, tabs: TableMap, role: Roles, p: int, c: int)
    returns (l1: VM, tc: Table, role1: Roles)
    requires Inv(lay, k, tabs, role) && p in tabs && c !in tabs && 1 <= c < 16 && HasMemory(k, tabs[p])
             && l == Lowered(k, role)
    ensures DuplicatePagetable(l, tabs[p].l1, c) == Ok((l1, tc.l1)) && tc.l1 != 0
    ensures tc.Distinct() && role1 == RolesWithTable(role, tc, c)
    ensures Duplicated(l, l1, tabs[p], tc, c) && SlotsSame(lay, l.mem, l1.mem, tabs)
    ensures Forking(lay, l1, l1, tabs[c := tc], role1, role1, p, c, 256)
    ensures |FreePages(l1.info)| >= |ToCopy(l1.mem, tabs[p], 256)|
  {
    hide Inv, Wired, Slot, DuplicatePagetable, FreePages, ToCopy, RolesWithTable, Duplicated, SlotsSame, RoomToShare,
         AllocFive, Ahead, Lowered, FullPages, SharesKnown, Forking;
    var t := tabs[p];
    LoweredInv(lay, k, tabs, role);
    LiveSharesKnown(lay, k, tabs, role, p);
    SourceOk(lay, l, tabs, role, p);
    l1, tc := DuplicateForm(l, t, c);
    DuplicatedTable(l, l1, t, tc, c);
    JoinSpace(lay, l, l1, tabs, role, t, tc, c);
    role1 := RolesWithTable(role, tc, c);
    StartForking(lay, l, l1, tabs, role1, p, c, tc);
    FreeAfterDuplicate(l, l1, t, tc, c);
  }

  /** A fork with enough memory always completes, with the memory that a fork with
      room in the counts would leave. Where a read-only page of the parent has a full
      count, the count comes out as -128. */
  lemma ForkWraps(lay: Layout, k: VM, tabs: TableMap, role: Roles, p: int, c: int) returns (k': VM, root: nat, l': VM)
    requires Inv(lay, k, tabs, role) && p in tabs && c !in tabs && 1 <= c < 16 && HasMemory(k, tabs[p])
    ensures ForkSpace(k, tabs[p].l1, c) == Ok((k', root)) && root != 0
    ensures ForkSpace(Lowered(k, role), tabs[p].l1, c) == Ok((l', root)) && l'.mem == k'.mem
    ensures Wired(k'.mem, tabs[p]) && forall u :: 0 <= u < 1024 ==> Slot(k'.mem, tabs[p], u) == Slot(k.mem, tabs[p], u)
    ensures forall u, f :: 256 <= u < 768 && 0 <= f < 512 && Slot(k.mem, tabs[p], u) == ReadOnly(f) ==>
              k.info[f].refcount == 127 ==> k'.info[f].refcount == -128
  {
    hide Inv, Slot, DuplicatePagetable, ForkPages, FreePages, ToCopy, RolesWithTable, Duplicated, SlotsSame,
         AllocFive, Ahead, FullPages, Forking, HasMemory;
    var t, l, d := tabs[p], Lowered(k, role), FullPages(k, role);
    LoweredInv(lay, k, tabs, role);
    hide Lowered;
    var l1, tc, role1 := LoweredStart(lay, k, l, tabs, role, p, c);
    AheadDuplicate(k, l, d, t.l1, c, l1, tc.l1);
    var k1 := VM(l1.mem, AllocFive(k.info, c).0);
    var role';
    l', k', role' := AheadPages(lay, l1, l1, k1, d, tabs[c := tc], role1, role1, p, c, 256);
    root := tc.l1;
    ParentUnchanged(lay, k, l1, l', tabs, role1, role', p, c, tc);
    forall u, f | 256 <= u < 768 && 0 <= f < 512 && Slot(k.mem, t, u) == ReadOnly(f) && k.info[f].refcount == 127
      ensures k'.info[f].refcount == -128
    {
      WrappedCount(lay, k, l, l1, l', k', tabs, role, role1, role', p, c, tc, u, f);
    }
  }

  lemma ParentUnchanged(lay: Layout, k: VM, l1: VM, l': VM, tabs: TableMap, role1: Roles, role': Roles, p: int,
                        c: int, tc: Table)
    requires p in tabs && p != c && SlotsSame(lay, k.mem, l1.mem, tabs)
             && Forking(lay, l1, l', tabs[c := tc], role1, role', p, c, 768)
    ensures Wired(l'.mem, tabs[p]) && forall u :: 0 <= u < 1024 ==> Slot(l'.mem, tabs[p], u) == Slot(k.mem, tabs[p], u)
  {
    LiveWired(lay, l', tabs[c := tc], role', p);
    assert forall u :: 0 <= u < 1024 ==> Slot(l1.mem, tabs[p], u) == Slot(k.mem, tabs[p], u);
    hide Inv, Wired, Slot, KernelTableOk;
  }

  lemma WrappedCount(lay: Layout, k: VM, l: VM, l1: VM, l': VM, k': VM, tabs: TableMap, role: Roles, role1: Roles,
                     role': Roles,
                     p: int, c: int, tc: Table, u: nat, f: nat)
    requires Inv(lay, k, tabs, role) && p in tabs && c !in tabs && 256 <= u < 768 && f < 512
    requires l == Lowered(k, role) && Duplicated(l, l1, tabs[p], tc, c) && SlotsSame(lay, l.mem, l1.mem, tabs)
    requires tc.Distinct() && role1 == RolesWithTable(role, tc, c)
    requires Forking(lay, l1, l', tabs[c := tc], role1, role', p, c, 768)
    requires Ahead(k'.info, l'.info, FullPages(k, role))
    requires Slot(k.mem, tabs[p], u) == ReadOnly(f) && k.info[f].refcount == 127
    ensures k'.info[f].refcount == -128
  {
    hide Inv, Slot, ReadOnly, Forking, Duplicated, SlotsSame, RolesWithTable, Ahead, Lowered, FullPages, Wired;
    SharedRole(lay, k, tabs, role, p, u, f);
    LoweredFull(k, l, role, f);
    StartsShared(lay, k, l, l1, tabs, role, role1, p, c, tc, u, f);
    ForkBumps(lay, l1, l', tabs, role1, role', p, c, tc, u, f);
    AheadOf(k'.info, l'.info, FullPages(k, role), f);
  }

  lemma LoweredFull(k: VM, l: VM, role: Roles, f: nat)
    requires f < 512 && l == Lowered(k, role) && role[f].Shared? && k.info[f].refcount == 127
    ensures f in FullPages(k, role) && l.info[f].refcount == 126 && l.mem == k.mem
  {
    assert IsFull(k, role, f);
  }

  /** The lowered page is still shared when the loop starts. */
  lemma StartsShared(lay: Layout, k: VM, l: VM, l1: VM, tabs: TableMap, role: Roles, role1: Roles, p: int, c: int,
                     tc: Table, u: nat, f: nat)
    requires p in tabs && 256 <= u < 768 && f < 512 && l.mem == k.mem && l.info[f].refcount == 126
             && role[f] == Shared(u)
    requires Duplicated(l, l1, tabs[p], tc, c) && SlotsSame(lay, l.mem, l1.mem, tabs)
    requires tc.Distinct() && role1 == RolesWithTable(role, tc, c) && Slot(k.mem, tabs[p], u) == ReadOnly(f)
    ensures role1[f] == Shared(u) && Slot(l1.mem, tabs[p], u) == ReadOnly(f) && l1.info[f].refcount == 126
  {
    assert !tc.Has(f);
    RolesTable(role, tc, c);
    hide Slot, Wired, ReadOnly, RolesWithTable;
  }

  lemma ForkBumps(lay: Layout, l1: VM, l': VM, tabs: TableMap, role1: Roles, role': Roles, p: int, c: int, tc: Table,
                  u: nat, f: nat)
    requires p in tabs && p != c && 256 <= u < 768 && f < 512
             && Forking(lay, l1, l', tabs[c := tc], role1, role', p, c, 768)
    requires role1[f] == Shared(u) && Slot(l1.mem, tabs[p], u) == ReadOnly(f) && l1.info[f].refcount == 126
    ensures l'.info[f].refcount == 127
  {
    assert ForkedPage(l1, l', role1, role', tabs[p], tc, c, f, 768);
    hide Inv, Slot, ReadOnly, Forked;
  }

  lemma AheadOf(i: Info, j: Info, d: set<nat>, f: nat)
    requires Ahead(i, j, d) && f in d && f < 512 && j[f].refcount == 127
    ensures i[f].refcount == -128
  {
    assert ToInt8(128) == -128;
  }

  lemma SharedRole(lay: Layout, k: VM, tabs: TableMap, role: Roles, p: int, u: nat, f: nat)
    requires Inv(lay, k, tabs, role) && p in tabs && 256 <= u < 768 && f < 512 && Slot(k.mem, tabs[p], u) == ReadOnly(f)
    ensures role[f] == Shared(u)
  {
    EntryForms(f);
    assert SlotOk(k.mem, tabs[p], role, p, u);
    hide Inv, Slot;
  }

  /** After a fork with enough memory, counts cover references exactly when no
      read-only page of the parent had a full count. */
  lemma ForkCountsIff(s: State, tabs: TableMap, role: Roles)
    requires KInv(s, tabs, role) && Live(s, s.current) && FreeSlot(s.procs, 1) < 16
    requires HasMemory(s.vm, TablesOf(s, s.current))
    ensures SysFork(s).Ok?
    ensures (forall pn: nat :: pn < 512 && !IsSystem(s.lay, pn) ==> CountCovers(SysFork(s).value, pn))
       <==> RoomToShare(s.vm, TablesOf(s, s.current))
  {
    TableOfCurrent(s, tabs, role);
    FreshSlot(s, tabs);
    var p, c := s.current, FreeSlot(s.procs, 1);
    hide Inv, ForkSpace, FreeSlot, TableAt, FreePages, ToCopy, Slot, CountCovers, ProcsOk, IsSystem, SysFork;
    if RoomToShare(s.vm, tabs[p]) {
      var s', tc, role', k1, role1 := ForkResult(s, tabs, role);
      forall pn: nat | pn < 512 && !IsSystem(s.lay, pn) ensures CountCovers(s', pn) {
        hide KInv;
        CountsByRole(s', tabs[c := tc], role', pn);
      }
    } else {
      var k', root, _ := ForkWraps(s.lay, s.vm, tabs, role, p, c);
      var u, f := FullCount(s.lay, s.vm, tabs, role, p);
      ForkVm(s, k', root);
      NegativeCount(SysFork(s).value, f);
    }
  }

  lemma NegativeCount(s: State, f: nat)
    requires f < 512 && s.vm.info[f].refcount < 0
    ensures !CountCovers(s, f)
  {
  }

  /** Without room there is a read-only user page with a full count. */
  lemma FullCount(lay: Layout, k: VM, tabs: TableMap, role: Roles, p: int) returns (u: nat, f: nat)
    requires Inv(lay, k, tabs, role) && p in tabs && !RoomToShare(k, tabs[p])
    ensures 256 <= u < 768 && f < 512 && Slot(k.mem, tabs[p], u) == ReadOnly(f) && k.info[f].refcount == 127
    ensures !IsSystem(lay, f)
  {
    u :| 256 <= u < 768 && !CanShare(k, Slot(k.mem, tabs[p], u));
    f := Frame(Slot(k.mem, tabs[p], u));
    EntryForms(f);
    assert SlotOk(k.mem, tabs[p], role, p, u);
    assert PageOk(lay, k, tabs, role, f);
    hide Slot, Wired, KernelTableOk;
  }
}
