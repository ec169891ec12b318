/** The copy loop of INT_SYS_FORK (kernel.c:368-380): the child gets its own copy
    of every writable user page and shares every read-only one. */
module Forks {
  import opened X86
  import opened Paging
  import opened Tables
  import opened Spaces
  import opened Alloc
  import opened Duplicate

  // ---------------------------------------------------------------- operation

  /** A count is an `int8_t`. */
  function ToInt8(x: int): int {
    (x + 128) % 256 - 128
  }

  /** `++pageinfo[pn].refcount`. For an unmapped page `pn` is -1 and the increment
      falls before the array, on no page record. */
  function IncRef(info: Info, pn: int): Info {
    if 0 <= pn < 512 then info[pn := info[pn].(refcount := ToInt8(info[pn].refcount + 1))] else info
  }

  function PageAt(mem: Memory, p: nat): Page {
    if p < 512 then mem[p] else ZeroPage()
  }

  /** One iteration. A failed allocation is not noticed: the copy then goes to
      page 0, which is what gets mapped. */
  function ForkPage(k: VM, parent: nat, child: nat, pid: int, v: nat): (r: Result<VM>)
    requires v < 768
  {
    var vam := Lookup(k.mem, parent, v * 4096);
    if vam.pa != CONSOLE_ADDR && Writable(vam.perm) then
      var (info, page) := AllocPage(k.info, pid);
      var mem := k.mem[page := PageAt(k.mem, vam.pa / 4096)];
      var (m, _) :- MapPage(mem, child, v * 4096, page * 4096, vam.perm);
      Ok(VM(m, info))
    else
      var (m, _) :- MapPage(k.mem, child, v * 4096, vam.pa, vam.perm);
      Ok(VM(m, IncRef(k.info, vam.pn)))
  }

  function ForkPages(k: VM, parent: nat, child: nat, pid: int, v: nat): (r: Result<VM>)
    requires v <= 768
    decreases 768 - v
  {
    if v == 768 then
      Ok(k)
    else
      var k' :- ForkPage(k, parent, child, pid, v);
      ForkPages(k', parent, child, pid, v + 1)
  }

  // ---------------------------------------------------------- effect of the loop

  /** User pages from `v` on that the loop must copy. */
  function ToCopy(mem: Memory, t: Table, v: nat): set<nat> {
    set u: nat | v <= u < 768 && 256 <= u && Slot(mem, t, u) != 0 && Writable(Slot(mem, t, u))
  }

  /** No read-only user page of the table has a count that cannot be increased. */
  predicate RoomToShare(k: VM, t: Table) {
    forall u :: 256 <= u < 768 ==> CanShare(k, Slot(k.mem, t, u))
  }

  predicate CanShare(k: VM, e: Word) {
    Present(e) && !Writable(e) && Frame(e) < 512 ==> k.info[Frame(e)].refcount < 127
  }

  /** Slot `u` of the child once the loop has reached `v`: from `k0`, the state
      the loop started in, to `k`. */
  ghost predicate ForkedSlot(k0: VM, k: VM, tp: Table, tc: Table, u: nat, v: nat)
    requires u < 1024
  {
    var e, e' := Slot(k0.mem, tp, u), Slot(k.mem, tc, u);
    if 256 <= u < v then
      if e != 0 && Writable(e) then
        && Frame(e) < 512 && Frame(e') < 512 && e' == Full(Frame(e'))
        && k0.info[Frame(e')].refcount == 0
        && k.mem[Frame(e')] == k0.mem[Frame(e)]
      else
        e' == e
    else
      e' == Slot(k0.mem, tc, u)
  }

  /** Page `x` gained the child as a sharer. */
  predicate Bumped(k0: VM, role0: Roles, tp: Table, x: nat, v: nat)
    requires x < 512
  {
    role0[x].Shared? && role0[x].home < v && Shares(k0.mem, tp, x, role0[x].home)
  }

  ghost predicate ForkedPage(k0: VM, k: VM, role0: Roles, role: Roles, tp: Table, tc: Table, pid: int, x: nat, v: nat)
    requires x < 512
  {
    if k0.info[x].refcount == 0 then
      (role[x] == Free && k.info[x] == k0.info[x])
      || (role[x].Private? && role[x].pid == pid && 256 <= role[x].vpn < v && k.info[x] == PageInfo(pid, 1))
    else
      && role[x] == role0[x]
      && (!tc.Has(x) ==> k.mem[x] == k0.mem[x])
      && k.info[x] == (if Bumped(k0, role0, tp, x, v) then PageInfo(k0.info[x].owner, k0.info[x].refcount + 1)
        else k0.info[x])
  }

  ghost predicate Forked(k0: VM, k: VM, role0: Roles, role: Roles, tp: Table, tc: Table, pid: int, v: nat) {
    && (forall u :: 0 <= u < 1024 ==> Slot(k.mem, tp, u) == Slot(k0.mem, tp, u))
    && (forall u :: 0 <= u < 1024 ==> ForkedSlot(k0, k, tp, tc, u, v))
    && (forall x :: 0 <= x < 512 ==> ForkedPage(k0, k, role0, role, tp, tc, pid, x, v))
  }

  /** The loop's invariant. */
  ghost predicate Forking(lay: Layout, k0: VM, k: VM, tabs: TableMap, role0: Roles, role: Roles, p: int, c: int,
                          v: nat) {
    && p in tabs && c in tabs && p != c
    && Inv(lay, k0, tabs, role0) && Inv(lay, k, tabs, role)
    && Forked(k0, k, role0, role, tabs[p], tabs[c], c, v)
    && (forall u :: 256 <= u < 1024 ==> Slot(k0.mem, tabs[c], u) == 0)
    && RoomToShare(k0, tabs[p])
  }

  // ------------------------------------------------------------------ iteration

  /** Sharing one read-only page with the child. */
  lemma ShareKeeps(lay: Layout, k: VM, k': VM, tabs: TableMap, role: Roles, c: int, v: nat, f: nat)
    requires Inv(lay, k, tabs, role) && c in tabs && 256 <= v < 768 && f < 512
    requires Slot(k.mem, tabs[c], v) == 0 && role[f] == Shared(v) && k.info[f].refcount < 127
    requires SlotUpdated(lay, k.mem, k'.mem, tabs, c, v, ReadOnly(f)) && k'.info == IncRef(k.info, f)
    ensures Inv(lay, k', tabs, role)
    ensures Exact(k, tabs, role) ==> Exact(k', tabs, role)
    ensures Owned(k, tabs, role) ==> Owned(k', tabs, role)
  {
    hide Full, ReadOnly, Frame, PteFlags, Present, Writable, UserOk;
    EntryForms(f);
    hide KernelTableOk, Wired, Slot, SlotOk;
    forall pn | 0 <= pn < 512
      ensures PageOk(lay, k', tabs, role, pn)
      ensures ExactAt(k, tabs, role, pn) ==> ExactAt(k', tabs, role, pn)
      ensures OwnedAt(k, tabs, role, pn) ==> OwnedAt(k', tabs, role, pn)
    {
      SharePage(lay, k, k', tabs, role, c, v, f, pn);
    }
    forall q | q in tabs ensures SpaceOk(k'.mem, tabs, role, q) {
      assert SpaceOk(k.mem, tabs, role, q);
    }
    forall q, u | q in tabs && 0 <= u < 1024 ensures SlotOk(k'.mem, tabs[q], role, q, u) {
      assert SlotOk(k.mem, tabs[q], role, q, u);
      ShareSlot(k, k', tabs, role, c, v, f, q, u);
    }
  }

  lemma ShareSlot(k: VM, k': VM, tabs: TableMap, role: Roles, c: int, v: nat, f: nat, q: int, u: nat)
    requires q in tabs && c in tabs && u < 1024 && 256 <= v < 768 && f < 512 && role[f] == Shared(v)
    requires SlotOk(k.mem, tabs[q], role, q, u)
    requires Slot(k'.mem, tabs[q], u) == if q == c && u == v then ReadOnly(f) else Slot(k.mem, tabs[q], u)
    ensures SlotOk(k'.mem, tabs[q], role, q, u)
  {
    hide Full, ReadOnly, Frame, PteFlags, Present, Writable, UserOk;
    EntryForms(f);
    hide Slot;
  }

  lemma SharePage(lay: Layout, k: VM, k': VM, tabs: TableMap, role: Roles, c: int, v: nat, f: nat, pn: nat)
    requires Inv(lay, k, tabs, role) && c in tabs && 256 <= v < 768 && f < 512 && pn < 512
    requires Slot(k.mem, tabs[c], v) == 0 && role[f] == Shared(v) && k.info[f].refcount < 127
    requires SlotUpdated(lay, k.mem, k'.mem, tabs, c, v, ReadOnly(f)) && k'.info == IncRef(k.info, f)
    ensures PageOk(lay, k', tabs, role, pn)
    ensures ExactAt(k, tabs, role, pn) ==> ExactAt(k', tabs, role, pn)
    ensures OwnedAt(k, tabs, role, pn) ==> OwnedAt(k', tabs, role, pn)
  {
    assert PageOk(lay, k, tabs, role, pn);
    assert PageOk(lay, k, tabs, role, f);
    hide Inv, SlotUpdated, Slot, Sharers, IncRef, IsSystem, InitInfo, Full, ReadOnly, Shares;
    IncRecord(k.info, f, pn);
    UpdatedSlots(lay, k.mem, k'.mem, tabs, c, v, ReadOnly(f));
    FullEntry(pn);
    match role[pn] {
      case Shared(u) =>
        SharersGain(k.mem, k'.mem, tabs, c, v, f, pn, u);
      case Private(q, u) =>
        assert (q, u) != (c, v);
      case _ =>
    }
  }

  lemma IncRecord(info: Info, f: nat, x: nat)
    requires f < 512 && x < 512 && 0 <= info[f].refcount < 127
    ensures IncRef(info, f)[x] == if x == f then PageInfo(info[f].owner, info[f].refcount + 1) else info[x]
  {
    hide ToInt8;
    CountUp(info[f].refcount);
  }

  lemma UpdatedSlots(lay: Layout, mem: Memory, m: Memory, tabs: TableMap, p: int, v: nat, w: Word)
    requires SlotUpdated(lay, mem, m, tabs, p, v, w)
    ensures forall q, u :: q in tabs && 0 <= u < 1024 ==>
              Slot(m, tabs[q], u) == if q == p && u == v then w else Slot(mem, tabs[q], u)
  {
  }

  lemma FullEntry(f: nat)
    requires f < 512
    ensures Full(f) != 0
  {
  }

  lemma SharersGain(mem: Memory, m: Memory, tabs: TableMap, c: int, v: nat, f: nat, pn: nat, u: nat)
    requires c in tabs && v < 1024 && u < 1024 && f < 512 && pn < 512 && (pn == f ==> u == v)
    requires Slot(mem, tabs[c], v) == 0
    requires forall q :: q in tabs ==>
               Slot(m, tabs[q], u) == if q == c && u == v then ReadOnly(f) else Slot(mem, tabs[q], u)
    ensures var a, b := Sharers(mem, tabs, pn, u), Sharers(m, tabs, pn, u);
            if pn == f then b == a + {c} && |b| == |a| + 1 else a == b
  {
    EntryForms(f);
    EntryForms(pn);
    var a, b := Sharers(mem, tabs, pn, u), Sharers(m, tabs, pn, u);
    hide Slot;
    forall q | q in tabs
      ensures Shares(m, tabs[q], pn, u) <==> Shares(mem, tabs[q], pn, u) || (q == c && pn == f)
    {
    }
    if pn == f {
      assert c !in a && b == a + {c};
    } else {
      assert b == a;
    }
  }

  lemma WriteSame(mem: Memory, t: Table, v: nat)
    requires Wired(mem, t) && v < 1024
    ensures WriteSlot(mem, t, v, Slot(mem, t, v)) == mem
  {
    var x, i := if v < 512 then t.lo else t.hi, v % 512;
    assert mem[x][i := mem[x][i]] == mem[x];
    assert mem[x := mem[x]] == mem;
  }

  /** What Lookup reports for a user page of a live process. */
  lemma UserLookup(mem: Memory, t: Table, v: nat)
    requires Wired(mem, t) && v < 1024
    ensures Lookup(mem, t.l1, v * 4096) == Decode(Slot(mem, t, v), 0)
  {
    LookupWired(mem, t, v * 4096);
    assert v * 4096 / 4096 == v && v * 4096 % 4096 == 0;
  }

  lemma DecodeForms(f: nat)
    requires f < 512
    ensures Decode(Full(f), 0) == VaMapping(f, f * 4096, 7)
    ensures Decode(ReadOnly(f), 0) == VaMapping(f, f * 4096, 5)
    ensures Decode(0, 0) == UNMAPPED
  {
    EntryForms(f);
  }

  /** The arguments of the maps the loop makes. */
  lemma FormArgs(v: nat, f: nat)
    requires v < 1024 && f < 512
    ensures MapArgs(v * 4096, f * 4096, 1, 7) && LeafEntry(f * 4096, 7) == Full(f)
    ensures MapArgs(v * 4096, f * 4096, 1, 5) && LeafEntry(f * 4096, 5) == ReadOnly(f)
    ensures MapArgs(v * 4096, UNMAPPED.pa, 1, 0) && LeafEntry(UNMAPPED.pa, 0) == 0
    ensures Writable(7) && !Writable(5) && !Writable(0)
  {
  }

  /** The three things an iteration can do. */
  lemma ForkUnmapped(k: VM, tp: Table, tc: Table, pid: int, v: nat)
    requires Wired(k.mem, tp) && Wired(k.mem, tc) && 256 <= v < 768
    requires Slot(k.mem, tp, v) == 0 && Slot(k.mem, tc, v) == 0
    ensures ForkPage(k, tp.l1, tc.l1, pid, v) == Ok(k)
  {
    hide Lookup, MapPage, Wired, Slot, WriteSlot, Decode, MapArgs, LeafEntry, AllocPage, Writable, PageAt;
    UserLookup(k.mem, tp, v);
    DecodeForms(0);
    FormArgs(v, 0);
    MapPageWired(k.mem, tc, v, UNMAPPED.pa, 0);
    WriteSame(k.mem, tc, v);
  }

  lemma ForkShares(k: VM, tp: Table, tc: Table, pid: int, v: nat, f: nat)
    requires Wired(k.mem, tp) && Wired(k.mem, tc) && 256 <= v < 768 && f < 512
    requires Slot(k.mem, tp, v) == ReadOnly(f)
    ensures tc.Distinct()
    ensures ForkPage(k, tp.l1, tc.l1, pid, v) == Ok(VM(WriteSlot(k.mem, tc, v, ReadOnly(f)), IncRef(k.info, f)))
  {
    hide Lookup, MapPage, Wired, Slot, WriteSlot, Decode, MapArgs, LeafEntry, AllocPage, Writable, ReadOnly, IncRef,
         PageAt;
    UserLookup(k.mem, tp, v);
    WiredDistinct(k.mem, tc);
    DecodeForms(f);
    FormArgs(v, f);
    MapPageWired(k.mem, tc, v, f * 4096, 5);
  }

  lemma ForkCopies(k: VM, tp: Table, tc: Table, pid: int, v: nat, f: nat, g: nat)
    requires Wired(k.mem, tp) && Wired(k.mem, tc) && 256 <= v < 768 && f < 512 && f != 0xB8
    requires Slot(k.mem, tp, v) == Full(f)
    requires g == FindFree(k.info, 1) < 512 && Wired(k.mem[g := k.mem[f]], tc)
    ensures tc.Distinct()
    ensures ForkPage(k, tp.l1, tc.l1, pid, v)
         == Ok(VM(WriteSlot(k.mem[g := k.mem[f]], tc, v, Full(g)), k.info[g := PageInfo(pid, 1)]))
  {
    assert f * 4096 / 4096 == f;
    hide Lookup, MapPage, Wired, Slot, WriteSlot, Decode, MapArgs, LeafEntry, FindFree, Writable, Full;
    UserLookup(k.mem, tp, v);
    WiredDistinct(k.mem, tc);
    DecodeForms(f);
    FormArgs(v, g);
    MapPageWired(k.mem[g := k.mem[f]], tc, v, g * 4096, 7);
  }

  /** Which of the three applies to a live parent. */
  lemma ParentSlot(lay: Layout, k: VM, tabs: TableMap, role: Roles, p: int, v: nat) returns (f: nat)
    requires Inv(lay, k, tabs, role) && p in tabs && 256 <= v < 1024
    ensures f < 512
    ensures var e := Slot(k.mem, tabs[p], v);
            || e == 0
            || (e == Full(f) && role[f] == Private(p, v) && f != 0xB8 && k.info[f].refcount == 1)
            || (e == ReadOnly(f) && role[f] == Shared(v) && k.info[f].refcount >= 1)
  {
    assert SlotOk(k.mem, tabs[p], role, p, v);
    var e := Slot(k.mem, tabs[p], v);
    if e == 0 {
      return 0;
    }
    f := Frame(e);
    assert PageOk(lay, k, tabs, role, f);
    SystemConsole(lay);
  }

  lemma SystemConsole(lay: Layout)
    ensures IsSystem(lay, 0xB8)
  {
  }

  /** An unmapped page: nothing happens. */
  lemma AdvanceUnmapped(lay: Layout, k0: VM, k: VM, tabs: TableMap, role0: Roles, role: Roles, p: int, c: int, v: nat)
    requires Forking(lay, k0, k, tabs, role0, role, p, c, v) && 256 <= v < 768
    requires Slot(k.mem, tabs[p], v) == 0
    ensures Forking(lay, k0, k, tabs, role0, role, p, c, v + 1)
  {
    var w := v + 1;
    hide Inv, Slot, RoomToShare;
    assert Slot(k0.mem, tabs[p], v) == Slot(k.mem, tabs[p], v);
    forall u | 0 <= u < 1024 ensures ForkedSlot(k0, k, tabs[p], tabs[c], u, w) {
      assert ForkedSlot(k0, k, tabs[p], tabs[c], u, v);
    }
    forall x | 0 <= x < 512 ensures ForkedPage(k0, k, role0, role, tabs[p], tabs[c], c, x, w) {
      assert ForkedPage(k0, k, role0, role, tabs[p], tabs[c], c, x, v);
      EntryForms(x);
    }
  }

  /** A read-only page: the child becomes a sharer. */
  lemma AdvanceShared(lay: Layout, k0: VM, k: VM, k': VM, tabs: TableMap, role0: Roles, role: Roles, p: int, c: int,
                      v: nat, f: nat)
    requires Forking(lay, k0, k, tabs, role0, role, p, c, v) && 256 <= v < 768 && f < 512
    requires Slot(k.mem, tabs[p], v) == ReadOnly(f) && role[f] == Shared(v) && k.info[f].refcount >= 1
    requires SlotUpdated(lay, k.mem, k'.mem, tabs, c, v, ReadOnly(f)) && k'.info == IncRef(k.info, f)
    requires forall x :: 0 <= x < 512 && !tabs[c].Has(x) ==> k'.mem[x] == k.mem[x]
    ensures Forking(lay, k0, k', tabs, role0, role, p, c, v + 1)
    ensures Exact(k, tabs, role) ==> Exact(k', tabs, role)
    ensures Owned(k, tabs, role) ==> Owned(k', tabs, role)
  {
    var tp, tc := tabs[p], tabs[c];
    assert Slot(k0.mem, tp, v) == ReadOnly(f);
    assert ForkedSlot(k0, k, tp, tc, v, v);
    hide Inv, Exact, Owned, RoomToShare, Slot, ToInt8, KernelTableOk, Wired, ReadOnly, Full, ForkedSlot, ForkedPage;
    RoomAt(k0, tp, v, f);
    SharedStart(k0, k, role0, role, tp, tc, c, v, f);
    EmptySlot(k0, k, tp, tc, v);
    ShareKeeps(lay, k, k', tabs, role, c, v, f);
    forall u | 0 <= u < 1024 ensures Slot(k'.mem, tp, u) == Slot(k0.mem, tp, u) {
    }
    TableInUse(lay, k0, tabs, role0, c);
    var w := v + 1;
    forall u | 0 <= u < 1024 ensures ForkedSlot(k0, k', tp, tc, u, w) {
      assert ForkedSlot(k0, k, tp, tc, u, v);
      SharedSlot(lay, k0, k, k', tabs, role0, role, p, c, v, f, u);
    }
    forall x | 0 <= x < 512 ensures ForkedPage(k0, k', role0, role, tp, tc, c, x, w) {
      SharedPage(k0, k, k', role0, role, tp, tc, c, v, f, x);
    }
  }

  lemma RoomAt(k: VM, t: Table, v: nat, f: nat)
    requires RoomToShare(k, t) && 256 <= v < 768 && f < 512 && Slot(k.mem, t, v) == ReadOnly(f)
    ensures k.info[f].refcount < 127
  {
    assert CanShare(k, Slot(k.mem, t, v));
    EntryForms(f);
    hide Slot, ReadOnly, Frame, Present, Writable;
  }

  lemma EmptySlot(k0: VM, k: VM, tp: Table, tc: Table, v: nat)
    requires v < 1024 && ForkedSlot(k0, k, tp, tc, v, v) && Slot(k0.mem, tc, v) == 0
    ensures Slot(k.mem, tc, v) == 0
  {
  }

  /** The page about to be shared has not been touched by earlier iterations. */
  lemma SharedStart(k0: VM, k: VM, role0: Roles, role: Roles, tp: Table, tc: Table, c: int, v: nat, f: nat)
    requires f < 512 && role[f] == Shared(v) && k.info[f].refcount >= 1
    requires Forked(k0, k, role0, role, tp, tc, c, v)
    ensures k.info[f] == k0.info[f] && role0[f] == Shared(v)
  {
    assert ForkedPage(k0, k, role0, role, tp, tc, c, f, v);
  }

  lemma SharedPage(k0: VM, k: VM, k': VM, role0: Roles, role: Roles, tp: Table, tc: Table, c: int, v: nat, f: nat,
                   x: nat)
    requires f < 512 && x < 512 && role0[f] == Shared(v) && role[f] == Shared(v) && 1 <= k.info[f].refcount < 127
    requires k.info[f] == k0.info[f]
    requires ForkedPage(k0, k, role0, role, tp, tc, c, x, v) && v < 1024 && Slot(k0.mem, tp, v) == ReadOnly(f)
    requires k'.info == IncRef(k.info, f) && (!tc.Has(x) ==> k'.mem[x] == k.mem[x])
    ensures ForkedPage(k0, k', role0, role, tp, tc, c, x, v + 1)
  {
    hide Slot, ToInt8, ReadOnly;
    CountUp(k.info[f].refcount);
    EntriesDiffer(f, x);
  }

  lemma CountUp(n: int)
    ensures 0 <= n < 127 ==> ToInt8(n + 1) == n + 1
  {
  }

  lemma SharedSlot(lay: Layout, k0: VM, k: VM, k': VM, tabs: TableMap, role0: Roles, role: Roles, p: int, c: int,
                   v: nat, f: nat, u: nat)
    requires p in tabs && c in tabs && 256 <= v < 768 && f < 512 && u < 1024
    requires ForkedSlot(k0, k, tabs[p], tabs[c], u, v) && Slot(k0.mem, tabs[p], v) == ReadOnly(f)
    requires SlotUpdated(lay, k.mem, k'.mem, tabs, c, v, ReadOnly(f))
    requires forall x :: 0 <= x < 512 && !tabs[c].Has(x) ==> k'.mem[x] == k.mem[x]
    requires forall x :: 0 <= x < 512 && k0.info[x].refcount == 0 ==> !tabs[c].Has(x)
    ensures ForkedSlot(k0, k', tabs[p], tabs[c], u, v + 1)
  {
    hide Full, ReadOnly, Frame, PteFlags, Present, Writable, UserOk;
    EntryForms(f);
    hide Slot, KernelTableOk, Wired;
  }

  /** A writable page: page `g`, free until now, becomes the child's copy of `f`. */
  lemma AdvanceCopied(lay: Layout, k0: VM, k: VM, k': VM, tabs: TableMap, role0: Roles, role: Roles, p: int, c: int,
                      v: nat, f: nat, g: nat)
    requires Forking(lay, k0, k, tabs, role0, role, p, c, v) && 256 <= v < 768 && f < 512
    requires Slot(k.mem, tabs[p], v) == Full(f) && role[f] == Private(p, v) && k.info[f].refcount == 1
    requires g < 512 && k.info[g].refcount == 0
    requires SlotUpdated(lay, k.mem, k'.mem, tabs, c, v, Full(g)) && k'.info == k.info[g := PageInfo(c, 1)]
    requires forall x :: 0 <= x < 512 && !tabs[c].Has(x) ==> k'.mem[x] == if x == g then k.mem[f] else k.mem[x]
    ensures Forking(lay, k0, k', tabs, role0, role[g := Private(c, v)], p, c, v + 1)
    ensures Exact(k, tabs, role) ==> Exact(k', tabs, role[g := Private(c, v)])
    ensures Owned(k, tabs, role) ==> Owned(k', tabs, role[g := Private(c, v)])
  {
    hide Inv, Exact, Owned, RoomToShare, Slot, KernelTableOk, Wired, RolesAfterMap, Full, MapsPrivate;
    var tp, tc, role' := tabs[p], tabs[c], role[g := Private(c, v)];
    assert ForkedSlot(k0, k, tp, tc, v, v);
    FreeRole(lay, k, tabs, role, g);
    MapFresh(lay, k, k', tabs, role, c, v, g);
    RolesAtUnmapped(k.mem, tabs, role, c, v, g);
    TableInUse(lay, k0, tabs, role0, c);
    TableInUse(lay, k, tabs, role, c);
    hide MappedFresh;
    var w := v + 1;
    assert ForkedPage(k0, k, role0, role, tp, tc, c, f, v);
    assert ForkedPage(k0, k, role0, role, tp, tc, c, g, v);
    forall u | 0 <= u < 1024 ensures ForkedSlot(k0, k', tp, tc, u, w) {
      CopiedSlot(lay, k0, k, k', tabs, role, p, c, v, f, g, u);
    }
    forall x | 0 <= x < 512 ensures ForkedPage(k0, k', role0, role', tp, tc, c, x, w) {
      CopiedPage(k0, k, k', role0, role, tp, tc, c, v, f, g, x);
    }
  }

  lemma RolesAtUnmapped(mem: Memory, tabs: TableMap, role: Roles, p: int, v: nat, f: nat)
    requires p in tabs && v < 1024 && f < 512 && Slot(mem, tabs[p], v) == 0
    ensures RolesAfterMap(mem, tabs, role, p, v, f) == role[f := Private(p, v)]
  {
  }

  lemma CopiedSlot(lay: Layout, k0: VM, k: VM, k': VM, tabs: TableMap, role: Roles, p: int, c: int, v: nat, f: nat,
                   g: nat, u: nat)
    requires p in tabs && c in tabs && 256 <= v < 768 && f < 512 && g < 512 && u < 1024
    requires Inv(lay, k, tabs, role) && role[g] == Free
    requires ForkedSlot(k0, k, tabs[p], tabs[c], u, v) && Slot(k0.mem, tabs[p], v) == Full(f)
    requires k0.info[g].refcount == 0 && k.mem[f] == k0.mem[f]
    requires SlotUpdated(lay, k.mem, k'.mem, tabs, c, v, Full(g))
    requires forall x :: 0 <= x < 512 && !tabs[c].Has(x) ==> k'.mem[x] == if x == g then k.mem[f] else k.mem[x]
    requires forall x :: 0 <= x < 512 && k0.info[x].refcount == 0 ==> !tabs[c].Has(x)
    ensures ForkedSlot(k0, k', tabs[p], tabs[c], u, v + 1)
  {
    hide Inv, SlotUpdated, Slot, Full, ReadOnly, Frame, PteFlags, Present, Writable, UserOk;
    UpdatedSlots(lay, k.mem, k'.mem, tabs, c, v, Full(g));
    if u == v {
      EntryForms(f);
      EntryForms(g);
    } else if 256 <= u {
      NotThere(lay, k, tabs, role, c, u, g);
      var h := Frame(Slot(k.mem, tabs[c], u));
      if h < 512 {
        FullEntry(h);
      }
    }
  }

  /** A free page is behind no slot. */
  lemma NotThere(lay: Layout, k: VM, tabs: TableMap, role: Roles, c: int, u: nat, g: nat)
    requires Inv(lay, k, tabs, role) && c in tabs && 256 <= u < 1024 && g < 512 && role[g] == Free
    ensures Slot(k.mem, tabs[c], u) != 0 ==> Frame(Slot(k.mem, tabs[c], u)) != g
  {
    assert SlotOk(k.mem, tabs[c], role, c, u);
  }

  lemma CopiedPage(k0: VM, k: VM, k': VM, role0: Roles, role: Roles, tp: Table, tc: Table, c: int, v: nat, f: nat,
                   g: nat, x: nat)
    requires f < 512 && g < 512 && x < 512 && 256 <= v < 768 && role[g] == Free && k.info[g].refcount == 0
    requires k0.info[g].refcount == 0
    requires ForkedPage(k0, k, role0, role, tp, tc, c, x, v) && Slot(k0.mem, tp, v) == Full(f)
    requires k'.info == k.info[g := PageInfo(c, 1)]
    requires !tc.Has(x) ==> k'.mem[x] == if x == g then k.mem[f] else k.mem[x]
    ensures ForkedPage(k0, k', role0, role[g := Private(c, v)], tp, tc, c, x, v + 1)
  {
    hide Slot, ReadOnly, Full;
    EntriesDiffer(f, x);
  }

  lemma LiveWired(lay: Layout, k: VM, tabs: TableMap, role: Roles, p: int)
    requires Inv(lay, k, tabs, role) && p in tabs
    ensures Wired(k.mem, tabs[p]) && tabs[p].Distinct()
  {
    assert SpaceOk(k.mem, tabs, role, p);
  }

  lemma ToCopyNext(mem: Memory, t: Table, v: nat, f: nat)
    requires 256 <= v < 768 && f < 512
    requires Slot(mem, t, v) == 0 || Slot(mem, t, v) == Full(f) || Slot(mem, t, v) == ReadOnly(f)
    ensures |ToCopy(mem, t, v)| == |ToCopy(mem, t, v + 1)| + if Slot(mem, t, v) == Full(f) then 1 else 0
    ensures Full(f) != ReadOnly(f) && Full(f) != 0 && ReadOnly(f) != 0
  {
    hide Slot, Full, ReadOnly, Frame, PteFlags, Present, Writable, UserOk;
    EntryForms(f);
    EntriesDiffer(f, f);
    var a, b := ToCopy(mem, t, v), ToCopy(mem, t, v + 1);
    if Slot(mem, t, v) == Full(f) {
      assert a == b + {v};
    } else {
      NeitherWritable(f);
      assert a == b;
    }
  }

  lemma NeitherWritable(f: nat)
    requires f < 512
    ensures !Writable(ReadOnly(f)) && !Writable(0)
  {
    EntryForms(f);
  }

  lemma ShareFree(lay: Layout, k0: VM, k: VM, tabs: TableMap, role0: Roles, role: Roles, p: int, c: int, v: nat, f: nat)
    requires Forking(lay, k0, k, tabs, role0, role, p, c, v) && 256 <= v < 768 && f < 512
    requires Slot(k.mem, tabs[p], v) == ReadOnly(f) && role[f] == Shared(v) && k.info[f].refcount >= 1
    ensures FreePages(IncRef(k.info, f)) == FreePages(k.info)
  {
    SharedStart(k0, k, role0, role, tabs[p], tabs[c], c, v, f);
    EntryForms(f);
    hide Inv, Forked, Slot;
    assert Slot(k0.mem, tabs[p], v) == ReadOnly(f) by { ForkedParent(k0, k, role0, role, tabs[p], tabs[c], c, v); }
    assert CanShare(k0, Slot(k0.mem, tabs[p], v));
  }

  lemma ForkedParent(k0: VM, k: VM, role0: Roles, role: Roles, tp: Table, tc: Table, c: int, v: nat)
    requires Forked(k0, k, role0, role, tp, tc, c, v)
    ensures forall u :: 0 <= u < 1024 ==> Slot(k.mem, tp, u) == Slot(k0.mem, tp, u)
  {
  }

  lemma WriteSlotPages(mem: Memory, t: Table, v: nat, w: Word)
    requires Wired(mem, t) && v < 1024
    ensures forall x :: 0 <= x < 512 && !t.Has(x) ==> WriteSlot(mem, t, v, w)[x] == mem[x]
  {
    WriteSlotKeeps(mem, t, v, w);
  }

  /** The copying iteration in full: allocate, copy, map. */
  lemma CopyForm(lay: Layout, k: VM, tabs: TableMap, role: Roles, p: int, c: int, v: nat, f: nat, g: nat)
    returns (k': VM)
    requires Inv(lay, k, tabs, role) && p in tabs && c in tabs && 256 <= v < 768 && f < 512 && f != 0xB8
    requires Slot(k.mem, tabs[p], v) == Full(f) && g == FindFree(k.info, 1) < 512
    ensures ForkPage(k, tabs[p].l1, tabs[c].l1, c, v) == Ok(k')
    ensures SlotUpdated(lay, k.mem, k'.mem, tabs, c, v, Full(g)) && k'.info == k.info[g := PageInfo(c, 1)]
    ensures forall x :: 0 <= x < 512 && !tabs[c].Has(x) ==> k'.mem[x] == if x == g then k.mem[f] else k.mem[x]
  {
    var k1 := VM(k.mem[g := k.mem[f]], k.info);
    FreeRole(lay, k, tabs, role, g);
    forall x | 0 <= x < 512 && IsTableFrame(lay, role, x) ensures k1.mem[x] == k.mem[x] {
      if lay.KernelTable().Has(x) {
        KernelPages(lay, k.mem, x);
      }
    }
    hide Wired, Slot, WriteSlot, ForkPage, Full, KernelTableOk, PagesOk, SlotsOk, SpacesOk, FindFree;
    DataKeeps(lay, k, tabs, role, k1.mem);
    LiveWired(lay, k, tabs, role, p);
    LiveWired(lay, k, tabs, role, c);
    LiveWired(lay, k1, tabs, role, c);
    ForkCopies(k, tabs[p], tabs[c], c, v, f, g);
    SlotWrite(lay, k1, tabs, role, c, v, Full(g));
    k' := VM(WriteSlot(k1.mem, tabs[c], v, Full(g)), k.info[g := PageInfo(c, 1)]);
    WriteSlotPages(k1.mem, tabs[c], v, Full(g));
  }

  /** One iteration keeps the loop's invariant and takes a free page exactly when
      it copies one. */
  lemma ForkStep(lay: Layout, k0: VM, k: VM, tabs: TableMap, role0: Roles, role: Roles, p: int, c: int, v: nat)
    returns (k': VM, role': Roles)
    requires Forking(lay, k0, k, tabs, role0, role, p, c, v) && 256 <= v < 768
    requires |FreePages(k.info)| >= |ToCopy(k0.mem, tabs[p], v)|
    ensures ForkPage(k, tabs[p].l1, tabs[c].l1, c, v) == Ok(k')
    ensures Forking(lay, k0, k', tabs, role0, role', p, c, v + 1)
    ensures Exact(k, tabs, role) ==> Exact(k', tabs, role')
    ensures Owned(k, tabs, role) ==> Owned(k', tabs, role')
    ensures |FreePages(k'.info)| - |ToCopy(k0.mem, tabs[p], v + 1)|
            == |FreePages(k.info)| - |ToCopy(k0.mem, tabs[p], v)|
  {
    hide Inv, Exact, Owned, Wired, Slot, ForkPage, FreePages, ToCopy, WriteSlot, SlotUpdated, Full, ReadOnly,
         RoomToShare, FindFree;
    var tp, tc := tabs[p], tabs[c];
    LiveWired(lay, k, tabs, role, p);
    LiveWired(lay, k, tabs, role, c);
    var f := ParentSlot(lay, k, tabs, role, p, v);
    assert Slot(k0.mem, tp, v) == Slot(k.mem, tp, v);
    assert ForkedSlot(k0, k, tp, tc, v, v);
    ToCopyNext(k0.mem, tp, v, f);
    if Slot(k.mem, tp, v) == 0 {
      ForkUnmapped(k, tp, tc, c, v);
      AdvanceUnmapped(lay, k0, k, tabs, role0, role, p, c, v);
      return k, role;
    } else if Slot(k.mem, tp, v) == ReadOnly(f) {
      ForkShares(k, tp, tc, c, v, f);
      SlotWrite(lay, k, tabs, role, c, v, ReadOnly(f));
      k' := VM(WriteSlot(k.mem, tc, v, ReadOnly(f)), IncRef(k.info, f));
      WriteSlotPages(k.mem, tc, v, ReadOnly(f));
      ShareFree(lay, k0, k, tabs, role0, role, p, c, v, f);
      AdvanceShared(lay, k0, k, k', tabs, role0, role, p, c, v, f);
      role' := role;
    } else {
      AllocTakes(k.info, c);
      var g := FindFree(k.info, 1);
      k' := CopyForm(lay, k, tabs, role, p, c, v, f, g);
      AdvanceCopied(lay, k0, k, k', tabs, role0, role, p, c, v, f, g);
      role' := role[g := Private(c, v)];
    }
  }

  lemma ForkPagesEnd(k: VM, parent: nat, child: nat, pid: int)
    ensures ForkPages(k, parent, child, pid, 768) == Ok(k)
  {
  }

  lemma ForkPagesNext(k: VM, k1: VM, parent: nat, child: nat, pid: int, v: nat)
    requires v < 768 && ForkPage(k, parent, child, pid, v) == Ok(k1)
    ensures ForkPages(k, parent, child, pid, v) == ForkPages(k1, parent, child, pid, v + 1)
  {
    hide ForkPage;
  }

  lemma BothLive(lay: Layout, k0: VM, k: VM, tabs: TableMap, role0: Roles, role: Roles, p: int, c: int, v: nat)
    requires Forking(lay, k0, k, tabs, role0, role, p, c, v)
    ensures p in tabs && c in tabs
  {
  }

  lemma ToCopyNone(mem: Memory, t: Table)
    ensures ToCopy(mem, t, 768) == {}
  {
  }

  lemma {:induction false} ForkLoop(lay: Layout, k0: VM, k: VM, tabs: TableMap, role0: Roles, role: Roles, p: int,
                                    c: int, v: nat)
    returns (k': VM, role': Roles)
    requires Forking(lay, k0, k, tabs, role0, role, p, c, v) && 256 <= v <= 768
    requires |FreePages(k.info)| >= |ToCopy(k0.mem, tabs[p], v)|
    ensures ForkPages(k, tabs[p].l1, tabs[c].l1, c, v) == Ok(k')
    ensures Forking(lay, k0, k', tabs, role0, role', p, c, 768)
    ensures Exact(k, tabs, role) ==> Exact(k', tabs, role')
    ensures Owned(k, tabs, role) ==> Owned(k', tabs, role')
    ensures |FreePages(k'.info)| == |FreePages(k.info)| - |ToCopy(k0.mem, tabs[p], v)|
    decreases 768 - v
  {
    hide Forking, Exact, Owned, ForkPage, ForkPages, FreePages, ToCopy;
    BothLive(lay, k0, k, tabs, role0, role, p, c, v);
    if v == 768 {
      ForkPagesEnd(k, tabs[p].l1, tabs[c].l1, c);
      ToCopyNone(k0.mem, tabs[p]);
      return k, role;
    }
    var k1, role1 := ForkStep(lay, k0, k, tabs, role0, role, p, c, v);
    ForkPagesNext(k, k1, tabs[p].l1, tabs[c].l1, c, v);
    k', role' := ForkLoop(lay, k0, k1, tabs, role0, role1, p, c, v + 1);
  }

  // ---------------------------------------------------------------- whole fork

  /** The address-space part of INT_SYS_FORK for a free slot `c`. */
  function ForkSpace(k: VM, parent: nat, c: int): (r: Result<(VM, nat)>)
  {
    var (k1, child) :- DuplicatePagetable(k, parent, c);
    if child == 0 then
      Ok((k1, 0))
    else
      var k' :- ForkPages(k1, parent, child, c, 256);
      Ok((k', child))
  }

  /** Enough memory for the child, and no count about to overflow. */
  predicate ForkGuard(k: VM, t: Table) {
    && |FreePages(k.info)| >= 5 + |ToCopy(k.mem, t, 256)|
    && RoomToShare(k, t)
  }

  /** How a guarded fork's result relates to the state before it: `k1` is the state
      in which the new table `tc` had just been built. */
  ghost predicate ForkEffect(lay: Layout, k: VM, k1: VM, k': VM, tabs: TableMap, role1: Roles, role': Roles, p: int,
                             c: int, tc: Table) {
    && p in tabs && c !in tabs
    && Duplicated(k, k1, tabs[p], tc, c)
    && SlotsSame(lay, k.mem, k1.mem, tabs)
    && Forking(lay, k1, k', tabs[c := tc], role1, role', p, c, 768)
  }

  /** A guarded fork raises no panic, keeps the invariant, has the effect above, and
      takes exactly five pages and one for each writable page. */
  lemma ForkKeeps(lay: Layout, k: VM, tabs: TableMap, role: Roles, p: int, c: int)
    returns (k': VM, tc: Table, role': Roles, k1: VM, role1: Roles)
    requires Inv(lay, k, tabs, role) && p in tabs && c !in tabs && 1 <= c < 16
    requires ForkGuard(k, tabs[p])
    ensures ForkSpace(k, tabs[p].l1, c) == Ok((k', tc.l1)) && tc.l1 != 0
    ensures Inv(lay, k', tabs[c := tc], role')
    ensures Exact(k, tabs, role) ==> Exact(k', tabs[c := tc], role')
    ensures Owned(k, tabs, role) ==> Owned(k', tabs[c := tc], role')
    ensures tc.Distinct() && role1 == RolesWithTable(role, tc, c)
    ensures ForkEffect(lay, k, k1, k', tabs, role1, role', p, c, tc)
    ensures |FreePages(k'.info)| == |FreePages(k.info)| - 5 - |ToCopy(k.mem, tabs[p], 256)|
  {
    hide Inv, Exact, Owned, Wired, Slot, DuplicatePagetable, ForkPages, FreePages, ToCopy, RolesWithTable, Duplicated,
         SlotsSame, RoomToShare, AllocFive;
    var tp := tabs[p];
    SourceOk(lay, k, tabs, role, p);
    k1, tc := DuplicateForm(k, tp, c);
    DuplicatedTable(k, k1, tp, tc, c);
    JoinSpace(lay, k, k1, tabs, role, tp, tc, c);
    role1 := RolesWithTable(role, tc, c);
    StartForking(lay, k, k1, tabs, role1, p, c, tc);
    FreeAfterDuplicate(k, k1, tp, tc, c);
    k', role' := ForkLoop(lay, k1, k1, tabs[c := tc], role1, role1, p, c, 256);
  }

  /** A live table is a proper source for duplicate_pagetable. */
  lemma SourceOk(lay: Layout, k: VM, tabs: TableMap, role: Roles, p: int)
    requires Inv(lay, k, tabs, role) && p in tabs
    ensures Wired(k.mem, tabs[p]) && FramesInstalled(k.mem, tabs[p]) && InUse(k.info, tabs[p])
    ensures forall v :: 0 <= v < 256 ==> Slot(k.mem, tabs[p], v) == LowEntry(v)
  {
    var t := tabs[p];
    LiveWired(lay, k, tabs, role, p);
    TableInUse(lay, k, tabs, role, p);
    assert t.Has(t.l1) && t.Has(t.l2) && t.Has(t.l3) && t.Has(t.lo) && t.Has(t.hi);
    hide Wired, Slot, KernelTableOk, PagesOk, SpacesOk;
    forall v | 0 <= v < 1024
      ensures Present(Slot(k.mem, t, v)) ==> Frame(Slot(k.mem, t, v)) < 512
      ensures v < 256 ==> Slot(k.mem, t, v) == LowEntry(v)
    {
      assert SlotOk(k.mem, t, role, p, v);
      if v < 256 {
        LowForm(v);
      }
    }
  }

  lemma DuplicatedTable(k: VM, k': VM, s: Table, t: Table, pid: int)
    requires Duplicated(k, k', s, t, pid)
    ensures t.Distinct() && t.l1 != 0
    ensures forall u :: 256 <= u < 1024 ==> Slot(k'.mem, t, u) == 0
  {
    assert t.Has(t.l1);
  }

  lemma StartForking(lay: Layout, k: VM, k1: VM, tabs: TableMap, role1: Roles, p: int, c: int, tc: Table)
    requires p in tabs && c !in tabs && Inv(lay, k1, tabs[c := tc], role1)
    requires SlotsSame(lay, k.mem, k1.mem, tabs) && Duplicated(k, k1, tabs[p], tc, c) && RoomToShare(k, tabs[p])
    ensures Forking(lay, k1, k1, tabs[c := tc], role1, role1, p, c, 256)
    ensures ToCopy(k1.mem, tabs[p], 256) == ToCopy(k.mem, tabs[p], 256)
  {
    var tabs1, tp := tabs[c := tc], tabs[p];
    DuplicatedTable(k, k1, tp, tc, c);
    hide Slot, Wired, KernelTableOk, Inv;
    forall u | 256 <= u < 768 ensures CanShare(k1, Slot(k1.mem, tp, u)) {
      assert CanShare(k, Slot(k.mem, tp, u));
    }
    forall x | 0 <= x < 512 ensures ForkedPage(k1, k1, role1, role1, tp, tc, c, x, 256) {
      StartPage(lay, k1, tabs1, role1, tp, tc, c, x);
    }
  }

  lemma StartPage(lay: Layout, k1: VM, tabs: TableMap, role1: Roles, tp: Table, tc: Table, c: int, x: nat)
    requires Inv(lay, k1, tabs, role1) && x < 512
    ensures ForkedPage(k1, k1, role1, role1, tp, tc, c, x, 256)
  {
    assert PageOk(lay, k1, tabs, role1, x);
    hide Slot;
  }

  lemma FreeAfterDuplicate(k: VM, k': VM, s: Table, t: Table, pid: int)
    requires Duplicated(k, k', s, t, pid) && (k'.info, t) == AllocFive(k.info, pid) && |FreePages(k.info)| >= 5
    ensures |FreePages(k'.info)| == |FreePages(k.info)| - 5
  {
    AllocSucceeds(k.info, pid);
    AllocLowest(k.info, pid);
  }
}
