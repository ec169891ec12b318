/** Exactly when a fork that completes is a deep copy: when it had a page for every
    writable page of the parent. Otherwise some writable page of the child is page 0. */
module Copies {
  import opened X86
  import opened Paging
  import opened Tables
  import opened Spaces
  import opened Duplicate
  import opened Forks
  import opened Kernel
  import opened Steps
  import opened Properties
  import opened ForkProperties
  import opened Panics
  import opened Overflow

  // ------------------------------------------------------------ too little memory

  /** Slot `u` of the parent leads to `f` read-only. */
  predicate SharesAt(k: VM, tp: Table, u: nat, f: nat)
    requires u < 1024
  {
    f < 512 && Slot(k.mem, tp, u) == ReadOnly(f)
  }

  /** The read-only pages the loop has still to share, from page `v` on, are in use
      with counts that have not wrapped, and no two slots lead to the same one. */
  ghost predicate ToShare(k: VM, tp: Table, v: nat) {
    && (forall u, f :: v <= u < 768 && 0 <= f && SharesAt(k, tp, u, f) ==> 1 <= k.info[f].refcount <= 127)
    && (forall u, w, f :: v <= u < w < 768 && 0 <= f && SharesAt(k, tp, u, f) ==> !SharesAt(k, tp, w, f))
  }

  /** What one iteration does to the free pages and to the child's slot. */
  ghost predicate Took(k: VM, info: Info, w: Word, copies: bool) {
    if !copies then FreePages(info) == FreePages(k.info)
    else if FreePages(k.info) == {} then w == Full(0) && FreePages(info) == {}
    else |FreePages(info)| == |FreePages(k.info)| - 1
  }

  lemma ShareTakes(k: VM, f: nat, w: Word)
    requires f < 512 && 1 <= k.info[f].refcount <= 127
    ensures Took(k, IncRef(k.info, f), w, false)
  {
    assert ToInt8(128) == -128;
    CountUp(k.info[f].refcount);
    hide ToInt8;
  }

  lemma CopyTakes(k: VM, pid: int)
    ensures var (info, page) := AllocPage(k.info, pid); page < 512 && Took(k, info, Full(page), true)
  {
    AllocTakes(k.info, pid);
    hide AllocPage, FreePages;
    EmptyCard(FreePages(k.info));
  }

  lemma EmptyCard(a: set<nat>)
    ensures |a| == 0 <==> a == {}
  {
  }

  /** Pages still to share are not touched by an iteration at `v`. */
  lemma ToShareNext(k: VM, tp: Table, v: nat, pid: int, m: Memory, info: Info, w: Word)
    requires ToShare(k, tp, v) && v < 768 && IterationForm(k, Slot(k.mem, tp, v), pid, info, w)
    requires forall u :: 0 <= u < 1024 ==> Slot(m, tp, u) == Slot(k.mem, tp, u)
    ensures ToShare(VM(m, info), tp, v + 1)
  {
    hide Slot, ToInt8, ReadOnly, Full, Frame, FindFree;
    var k' := VM(m, info);
    forall u, f | v + 1 <= u < 768 && 0 <= f && SharesAt(k', tp, u, f) ensures 1 <= k'.info[f].refcount <= 127 {
      assert SharesAt(k, tp, u, f) && !SharesAt(k, tp, v, f);
    }
    forall u, x, f | v + 1 <= u < x < 768 && 0 <= f && SharesAt(k', tp, u, f) ensures !SharesAt(k', tp, x, f) {
      assert SharesAt(k, tp, u, f) && !SharesAt(k, tp, x, f);
    }
  }

  lemma TakeStep(k: VM, tp: Table, tc: Table, pid: int, v: nat) returns (k': VM, w: Word, f: nat)
    requires Sane(k, tp, tc) && ToShare(k, tp, v) && 256 <= v < 768
    ensures ForkPage(k, tp.l1, tc.l1, pid, v) == Ok(k') && Sane(k', tp, tc) && ToShare(k', tp, v + 1)
    ensures forall u :: 0 <= u < 1024 ==> Slot(k'.mem, tp, u) == Slot(k.mem, tp, u)
    ensures forall u :: 0 <= u < 1024 ==> Slot(k'.mem, tc, u) == if u == v then w else Slot(k.mem, tc, u)
    ensures f < 512 && (Slot(k.mem, tp, v) == 0 || Slot(k.mem, tp, v) == Full(f) || Slot(k.mem, tp, v) == ReadOnly(f))
    ensures Took(k, k'.info, w, Slot(k.mem, tp, v) == Full(f))
  {
    hide Sane, Iteration, Wired, Slot, ForkPage, AllocPage, Full, ReadOnly, WriteSlot, Frame, Took, ToShare, IncRef;
    var m, info;
    m, info, w := SaneForm(k, tp, tc, pid, v);
    IterationKeeps(k, tp, tc, m, info, v, w);
    k' := VM(WriteSlot(m, tc, v, w), info);
    ToShareNext(k, tp, v, pid, k'.mem, info, w);
    var e := Slot(k.mem, tp, v);
    f := Frame(e) % 512;
    if e == 0 {
      EntriesDiffer(f, f);
      NothingTaken(k, w);
    } else {
      EntriesDiffer(f, f);
      if e == ReadOnly(f) {
        SharedCount(k, tp, v, f);
        ShareTakes(k, f, w);
      } else {
        CopyTakes(k, pid);
      }
    }
  }

  lemma NothingTaken(k: VM, w: Word)
    ensures Took(k, k.info, w, false)
  {
  }

  lemma SharedCount(k: VM, tp: Table, v: nat, f: nat)
    requires ToShare(k, tp, v) && v < 768 && f < 512 && Slot(k.mem, tp, v) == ReadOnly(f)
    ensures 1 <= k.info[f].refcount <= 127
  {
    assert SharesAt(k, tp, v, f);
    hide Slot;
  }

  /** What the loop has written to the child stays. */
  lemma {:induction false} EarlierKept(k: VM, tp: Table, tc: Table, pid: int, v: nat)
    requires Sane(k, tp, tc) && 256 <= v <= 768
    ensures ForkPages(k, tp.l1, tc.l1, pid, v).Ok?
    ensures var k' := ForkPages(k, tp.l1, tc.l1, pid, v).value;
            Wired(k'.mem, tc) && forall u :: 0 <= u < v ==> Slot(k'.mem, tc, u) == Slot(k.mem, tc, u)
    decreases 768 - v
  {
    hide Sane, ForkPage, ForkPages, Slot, Wired, WriteSlot, Iteration, IterationForm;
    if v == 768 {
      ForkPagesEnd(k, tp.l1, tc.l1, pid);
      SaneWired(k, tp, tc);
    } else {
      var m, info, w := SaneForm(k, tp, tc, pid, v);
      IterationKeeps(k, tp, tc, m, info, v, w);
      var k1 := VM(WriteSlot(m, tc, v, w), info);
      ForkPagesNext(k, k1, tp.l1, tc.l1, pid, v);
      EarlierKept(k1, tp, tc, pid, v + 1);
    }
  }

  /** With more pages to copy than free ones, some slot of the child gets page 0. */
  lemma {:induction false} SomeGetsZero(k: VM, tp: Table, tc: Table, pid: int, v: nat) returns (u: nat)
    requires Sane(k, tp, tc) && ToShare(k, tp, v) && 256 <= v <= 768
    requires |FreePages(k.info)| < |ToCopy(k.mem, tp, v)|
    ensures ForkPages(k, tp.l1, tc.l1, pid, v).Ok?
    ensures v <= u < 768 && Slot(ForkPages(k, tp.l1, tc.l1, pid, v).value.mem, tc, u) == Full(0)
    decreases 768 - v
  {
    hide Sane, ToShare, ForkPage, ForkPages, Slot, Full, ReadOnly, FreePages, ToCopy;
    if v == 768 {
      ToCopyNone(k.mem, tp);
      assert false;
    } else {
      var k1, w, f := TakeStep(k, tp, tc, pid, v);
      ToCopyNext(k.mem, tp, v, f);
      SameToCopy(k.mem, k1.mem, tp, v + 1);
      ForkPagesNext(k, k1, tp.l1, tc.l1, pid, v);
      if Slot(k.mem, tp, v) == Full(f) && FreePages(k.info) == {} {
        u := v;
        EarlierKept(k1, tp, tc, pid, v + 1);
      } else {
        u := SomeGetsZero(k1, tp, tc, pid, v + 1);
      }
    }
  }

  lemma SameToCopy(mem: Memory, m: Memory, t: Table, v: nat)
    requires forall u :: 0 <= u < 1024 ==> Slot(m, t, u) == Slot(mem, t, u)
    ensures ToCopy(m, t, v) == ToCopy(mem, t, v)
  {
    hide Slot;
  }

  /** The loop starts with every read-only page to share. */
  lemma InvToShare(lay: Layout, k: VM, tabs: TableMap, role: Roles, p: int)
    requires Inv(lay, k, tabs, role) && p in tabs
    ensures ToShare(k, tabs[p], 256)
  {
    forall u, f | 256 <= u < 768 && 0 <= f && SharesAt(k, tabs[p], u, f)
      ensures role[f] == Shared(u) && 1 <= k.info[f].refcount <= 127 {
      SharedRole(lay, k, tabs, role, p, u, f);
      assert PageOk(lay, k, tabs, role, f);
    }
  }

  /** The page a fork without memory shows the child at some writable address. */
  lemma ZeroBehind(s: State, s': State, tabs: TableMap, role: Roles) returns (v: nat)
    requires KInv(s, tabs, role) && Live(s, s.current) && FreeSlot(s.procs, 1) < 16 && SysFork(s) == Ok(s')
    requires !HasMemory(s.vm, TablesOf(s, s.current))
    ensures 256 <= v < 768 && PageBehind(s', FreeSlot(s.procs, 1), v) == 0
  {
    hide ForkPages, DuplicatePagetable, FreePages, ToCopy, FreeSlot, Sane, Inv, SysFork, ForkSpace, TableAt, Slot,
         ToShare, Full, ProcsOk, PageBehind;
    var p, c := s.current, FreeSlot(s.procs, 1);
    FreshSlot(s, tabs);
    TableOfCurrent(s, tabs, role);
    ForkPanicsIff(s, tabs, role);
    var k1, t, role1 := ForkStart(s, tabs, role);
    InvSane(s.lay, k1, tabs[c := t], role1, p, c);
    InvToShare(s.lay, k1, tabs[c := t], role1, p);
    SameToCopy(s.vm.mem, k1.mem, tabs[p], 256);
    v := SomeGetsZero(k1, tabs[p], t, c, 256);
    EarlierKept(k1, tabs[p], t, c, 256);
    var k' := ForkPages(k1, tabs[p].l1, t.l1, c, 256).value;
    ForkSpaceForm(s.vm, tabs[p].l1, c, k1, t.l1, k');
    ForkVm(s, k', t.l1);
    ZeroMapped(s', c, t, v);
  }

  lemma ZeroMapped(s: State, c: nat, t: Table, v: nat)
    requires c < 16 && Root(s, c) == t.l1 && Wired(s.vm.mem, t) && v < 1024 && Slot(s.vm.mem, t, v) == Full(0)
    ensures PageBehind(s, c, v) == 0
  {
    hide Wired, Slot, Lookup, Full, Decode;
    UserLookup(s.vm.mem, t, v);
    DecodeForms(0);
  }

  // ---------------------------------------------------------------- enough memory

  /** With enough memory the fork is a copy even where it wraps a count: it leaves the
      memory that a fork of the lowered state leaves. */
  lemma CopiesWithMemory(s: State, s': State, tabs: TableMap, role: Roles)
    requires KInv(s, tabs, role) && Live(s, s.current) && FreeSlot(s.procs, 1) < 16 && SysFork(s) == Ok(s')
    requires HasMemory(s.vm, TablesOf(s, s.current))
    ensures AllCopied(s, s', FreeSlot(s.procs, 1))
  {
    hide FreePages, ToCopy, FreeSlot, Inv, SysFork, ForkSpace, TableAt, Slot, Full, ProcsOk, CopiedPageAt, Lowered,
         RoomToShare, SharesKnown, FreshDistinct, Lookup;
    var p, c := s.current, FreeSlot(s.procs, 1);
    FreshSlot(s, tabs);
    TableOfCurrent(s, tabs, role);
    LoweredInv(s.lay, s.vm, tabs, role);
    LiveSharesKnown(s.lay, s.vm, tabs, role, p);
    var l := s.(vm := Lowered(s.vm, role));
    SameStructure(s, l, tabs);
    var l' := ForkIsDeepCopy(l, tabs, role);
    var k1, root, m := ForkWraps(s.lay, s.vm, tabs, role, p, c);
    ForkVm(s, k1, root);
    ForkVm(l, m, root);
    forall v | 256 <= v < 768 ensures CopiedPageAt(s, s', p, c, v) {
      assert CopiedPageAt(l, l', p, c, v);
      CopiedToo(s, s', l, l', role, p, c, v);
    }
  }

  lemma SameStructure(s: State, l: State, tabs: TableMap)
    requires ProcsOk(s, tabs) && l.procs == s.procs && l.current == s.current
    ensures ProcsOk(l, tabs) && (Live(s, s.current) ==> Live(l, l.current))
  {
    assert forall q :: Live(l, q) <==> Live(s, q);
  }

  lemma CopiedToo(s: State, s': State, l: State, l': State, role: Roles, p: nat, c: nat, v: nat)
    requires p < 16 && c < 16 && v < 1024 && CopiedPageAt(l, l', p, c, v)
    requires l == s.(vm := Lowered(s.vm, role)) && l'.vm.mem == s'.vm.mem && Root(l', c) == Root(s', c)
    ensures CopiedPageAt(s, s', p, c, v)
  {
    hide Lookup, IsFull;
  }

  /** In a consistent state, a fork that completes gives the child a copy of every
      user page of the parent exactly when memory sufficed. */
  lemma DeepCopyIff(s: State, s': State, tabs: TableMap, role: Roles)
    requires KInv(s, tabs, role) && Live(s, s.current) && FreeSlot(s.procs, 1) < 16 && SysFork(s) == Ok(s')
    ensures AllCopied(s, s', FreeSlot(s.procs, 1)) <==> HasMemory(s.vm, TablesOf(s, s.current))
  {
    hide KInv, SysFork, FreeSlot, HasMemory, TablesOf, CopiedPageAt;
    CurrentLow(s, tabs, role);
    if HasMemory(s.vm, TablesOf(s, s.current)) {
      CopiesWithMemory(s, s', tabs, role);
    } else {
      var v := ZeroBehind(s, s', tabs, role);
      NotCopied(s, s', s.current, FreeSlot(s.procs, 1), v);
    }
  }

  /** ... and so for the trap that makes it. */
  lemma ForkTrapCopiesIff(s: State, s': State, tabs: TableMap, role: Roles, e: Event)
    requires KInv(s, tabs, role) && Enabled(s, e) && e.Trap? && e.call == Fork && FreeSlot(s.procs, 1) < 16
             && Step(s, e) == Ok(s')
    ensures AllCopied(Saved(s, e.regs), s', FreeSlot(s.procs, 1)) <==> HasMemory(s.vm, TablesOf(s, s.current))
  {
    hide Inv, Exact, Owned, SysFork, FreeSlot, HasMemory, AllCopied, CheckVirtualMemory, ProcsOk, TableAt,
         LeavesTables, RunCurrent, Dispatch, Trapped;
    var s0 := Saved(s, e.regs);
    SavedKeeps(Loose, s, tabs, role, e.regs);
    FreeSlotSaved(s.procs, s0.procs, 1);
    EntryChecks(s, tabs, role, e.regs, Fork);
    ForkPanicsIff(s0, tabs, role);
    DeepCopyIff(s0, s', tabs, role);
  }

  lemma CurrentLow(s: State, tabs: TableMap, role: Roles)
    requires KInv(s, tabs, role)
    ensures s.current < 16
  {
  }

  lemma NotCopied(s: State, s': State, p: nat, c: nat, v: nat)
    requires p < 16 && c < 16 && v < 1024 && PageBehind(s', c, v) == 0
    ensures !CopiedPageAt(s, s', p, c, v)
  {
    hide Lookup;
  }
}
