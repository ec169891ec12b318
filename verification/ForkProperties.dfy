/** Fork is a deep copy, and exit undoes it. */
module ForkProperties {
  import opened X86
  import opened Paging
  import opened Tables
  import opened Spaces
  import opened Duplicate
  import opened Forks
  import opened Exits
  import opened Activation
  import opened Kernel
  import opened Steps
  import opened Properties

  // ----------------------------------------------------------------- deep copy

  /** User page `v` of the child `c` against page `v` of the parent `p`. */
  ghost predicate CopiedPageAt(s: State, s': State, p: nat, c: nat, v: nat)
    requires p < 16 && c < 16 && v < 1024
  {
    var f, g := PageBehind(s, p, v), PageBehind(s', c, v);
    && PermBehind(s', c, v) == PermBehind(s, p, v)
    && (f == -1 ==> g == -1)
    && (f != -1 ==> && 0 < f < 512 && 0 < g < 512
                    && s'.vm.mem[g] == s.vm.mem[f] == s'.vm.mem[f]
                    && (if Writable(PermBehind(s, p, v)) then s.vm.info[g].refcount == 0 else g == f))
  }

  /** Nothing else of the child lies on a fresh frame. */
  ghost predicate FreshDistinct(s: State, s': State, p: nat, c: nat) {
    p < 16 && c < 16 && forall u: nat, v: nat ::
      256 <= u < 768 && 256 <= v < 768 && Writable(PermBehind(s, p, v)) ==>
        PageBehind(s', c, u) == PageBehind(s', c, v) ==> u == v
  }

  /** The child's slot, from the loop's effect. */
  lemma ChildSlot(lay: Layout, k: VM, k1: VM, k': VM, tabs: TableMap, role1: Roles, role': Roles, p: int, c: int,
                  tc: Table, v: nat)
    requires ForkEffect(lay, k, k1, k', tabs, role1, role', p, c, tc) && 256 <= v < 768
    ensures var e, e' := Slot(k.mem, tabs[p], v), Slot(k'.mem, tc, v);
            if e != 0 && Writable(e) then
              && Frame(e) < 512 && Frame(e') < 512 && e' == Full(Frame(e'))
              && k1.info[Frame(e')].refcount == 0 && k'.mem[Frame(e')] == k1.mem[Frame(e)]
            else e' == e
  {
    assert Slot(k1.mem, tabs[p], v) == Slot(k.mem, tabs[p], v);
    assert ForkedSlot(k1, k', tabs[p], tc, v, 768);
  }

  /** A page in use before the fork and not free keeps its content. */
  lemma InUseKept(lay: Layout, k: VM, k1: VM, k': VM, tabs: TableMap, role1: Roles, role': Roles, p: int, c: int,
                  tc: Table, x: nat)
    requires ForkEffect(lay, k, k1, k', tabs, role1, role', p, c, tc) && x < 512 && k.info[x].refcount != 0
    ensures k1.mem[x] == k.mem[x] && k'.mem[x] == k.mem[x] && k1.info[x] == k.info[x]
  {
    assert !tc.Has(x);
    assert ForkedPage(k1, k', role1, role', tabs[p], tc, c, x, 768);
  }

  lemma FreeBefore(k: VM, k1: VM, s: Table, t: Table, c: int, x: nat)
    requires Duplicated(k, k1, s, t, c) && x < 512 && k1.info[x].refcount == 0
    ensures k.info[x].refcount == 0
  {
  }

  /** The state a guarded fork leads to. */
  lemma ForkResult(s: State, tabs: TableMap, role: Roles)
    returns (s': State, tc: Table, role': Roles, k1: VM, role1: Roles)
    requires KInv(s, tabs, role) && Live(s, s.current) && FreeSlot(s.procs, 1) < 16
    requires ForkGuard(s.vm, TablesOf(s, s.current))
    ensures SysFork(s) == Ok(s')
    ensures var p, c := s.current, FreeSlot(s.procs, 1);
            && p in tabs && c !in tabs && p != c && Live(s', p) && Live(s', c)
            && KInv(s', tabs[c := tc], role')
            && tc.Distinct() && role1 == RolesWithTable(role, tc, c)
            && ForkEffect(s.lay, s.vm, k1, s'.vm, tabs, role1, role', p, c, tc)
            && |FreePages(s'.vm.info)| == |FreePages(s.vm.info)| - 5 - |ToCopy(s.vm.mem, tabs[p], 256)|
            && s'.lay == s.lay && s'.current == p
            && s'.procs[c] == Proc(s.procs[p].regs.(rax := 0), P_RUNNABLE, tc.l1)
            && s'.procs[p] == s.procs[p].(regs := s.procs[p].regs.(rax := c))
            && (forall q :: 0 <= q < 16 && q != p && q != c ==> s'.procs[q] == s.procs[q])
  {
    var p, c := s.current, FreeSlot(s.procs, 1);
    TableOfCurrent(s, tabs, role);
    hide Inv, Wired, ForkEffect, ForkSpace, FreeSlot, ForkGuard, RolesWithTable, TableAt, SysFork, ProcsOk, FreePages,
         ToCopy;
    FreshSlot(s, tabs);
    var vm;
    vm, tc, role', k1, role1 := ForkKeeps(s.lay, s.vm, tabs, role, p, c);
    s' := ForkState(s, tabs, vm, tc);
  }

  lemma ForkState(s: State, tabs: TableMap, vm: VM, tc: Table) returns (s': State)
    requires ProcsOk(s, tabs) && Live(s, s.current) && FreeSlot(s.procs, 1) < 16
    requires ForkSpace(s.vm, s.procs[s.current].pagetable, FreeSlot(s.procs, 1)) == Ok((vm, tc.l1)) && tc.l1 != 0
    ensures SysFork(s) == Ok(s')
    ensures var p, c := s.current, FreeSlot(s.procs, 1);
            && p != c && Live(s', p) && Live(s', c)
            && ProcsOk(s', tabs[c := tc]) && s'.vm == vm && s'.lay == s.lay && s'.current == p
            && s'.procs[c] == Proc(s.procs[p].regs.(rax := 0), P_RUNNABLE, tc.l1)
            && s'.procs[p] == s.procs[p].(regs := s.procs[p].regs.(rax := c))
            && (forall q :: 0 <= q < 16 && q != p && q != c ==> s'.procs[q] == s.procs[q])
  {
    hide ForkSpace, FreeSlot;
    var p, c := s.current, FreeSlot(s.procs, 1);
    s' := SysFork(s).value;
    var tabs' := tabs[c := tc];
    forall q ensures q in tabs' <==> Live(s', q) {
      assert q in tabs <==> Live(s, q);
      assert q != c ==> (Live(s', q) <==> Live(s, q));
    }
  }

  /** Every user page of the current process is copied to `c`. */
  ghost predicate AllCopied(s: State, s': State, c: nat)
    requires s.current < 16 && c < 16
  {
    forall v :: 256 <= v < 768 ==> CopiedPageAt(s, s', s.current, c, v)
  }

  /** `s'` is `s` with a child `c` that has, page by page, the current process's view. */
  ghost predicate DeepCopy(s: State, s': State, c: nat)
    requires s.current < 16 && c < 16
  {
    var p := s.current;
    && AllCopied(s, s', c)
    && FreshDistinct(s, s', p, c)
    && (forall a: Va :: Lookup(s'.vm.mem, Root(s', p), a) == Lookup(s.vm.mem, Root(s, p), a))
    && s'.procs[c] == Proc(s.procs[p].regs.(rax := 0), P_RUNNABLE, Root(s', c))
    && s'.procs[p] == s.procs[p].(regs := s.procs[p].regs.(rax := c))
    && (forall q :: 0 <= q < 16 && q != p && q != c ==> s'.procs[q] == s.procs[q])
    && s'.current == p
    && |FreePages(s'.vm.info)| == |FreePages(s.vm.info)| - 5 - |ToCopy(s.vm.mem, TablesOf(s, p), 256)|
  }

  /** After a guarded fork the child has, page by page, the parent's permissions
      and contents: its own fresh frames where it may write, the same frames where
      it may not. The parent's lookups and contents are unchanged, the two differ in
      %rax only, and the pages taken are five and one for each writable page. */
  lemma ForkIsDeepCopy(s: State, tabs: TableMap, role: Roles) returns (s': State)
    requires KInv(s, tabs, role) && Live(s, s.current) && FreeSlot(s.procs, 1) < 16
    requires ForkGuard(s.vm, TablesOf(s, s.current))
    ensures SysFork(s) == Ok(s')
    ensures DeepCopy(s, s', FreeSlot(s.procs, 1))
  {
    hide KInv, ForkEffect, FreeSlot, ForkGuard, PageBehind, PermBehind, Lookup, SysFork, RolesWithTable, CopiedPageAt,
         TableAt, FreePages, ToCopy;
    var p, c := s.current, FreeSlot(s.procs, 1);
    TableOfCurrent(s, tabs, role);
    hide TablesOf;
    var tc, role', k1, role1;
    s', tc, role', k1, role1 := ForkResult(s, tabs, role);
    forall v | 256 <= v < 768 ensures CopiedPageAt(s, s', p, c, v) {
      CopiedAt(s, s', tabs, role, k1, role1, role', p, c, tc, v);
    }
    forall u: nat, v: nat | 256 <= u < 768 && 256 <= v < 768 && Writable(PermBehind(s, p, v))
      && PageBehind(s', c, u) == PageBehind(s', c, v)
      ensures u == v
    {
      FreshAt(s, s', tabs[c := tc], role', p, c, u, v);
    }
    forall a: Va ensures Lookup(s'.vm.mem, Root(s', p), a) == Lookup(s.vm.mem, Root(s, p), a) {
      ParentLookup(s, s', tabs, role, k1, role1, role', p, c, tc, a);
    }
  }

  lemma FreshAt(s: State, s': State, tabs': TableMap, role': Roles, p: nat, c: nat, u: nat, v: nat)
    requires KInv(s', tabs', role') && p < 16 && c < 16 && Live(s', c) && 256 <= u < 768 && 256 <= v < 768
    requires CopiedPageAt(s, s', p, c, v) && Writable(PermBehind(s, p, v))
             && PageBehind(s', c, u) == PageBehind(s', c, v)
    ensures u == v
  {
    hide KInv, PageBehind, PermBehind, Slot;
    BehindRole(s', tabs', role', c, u);
    BehindRole(s', tabs', role', c, v);
  }

  lemma CopiedAt(s: State, s': State, tabs: TableMap, role: Roles, k1: VM, role1: Roles, role': Roles, p: nat, c: nat,
                 tc: Table, v: nat)
    requires KInv(s, tabs, role) && KInv(s', tabs[c := tc], role') && p < 16 && c < 16 && Live(s, p) && Live(s', c)
    requires ForkEffect(s.lay, s.vm, k1, s'.vm, tabs, role1, role', p, c, tc) && 256 <= v < 768
    ensures CopiedPageAt(s, s', p, c, v)
  {
    hide Inv, Slot, Wired, PageBehind, PermBehind, Lookup, ForkEffect, Decode, KInv;
    var f := ParentAt(s, tabs, role, p, v);
    Behind(s', tabs[c := tc], role', c, v);
    ChildSlot(s.lay, s.vm, k1, s'.vm, tabs, role1, role', p, c, tc, v);
    BehindRole(s', tabs[c := tc], role', c, v);
    BehindRole(s, tabs, role, p, v);
    if f != 0 {
      InUseKept(s.lay, s.vm, k1, s'.vm, tabs, role1, role', p, c, tc, f);
      EntryForms(f);
      var g := PageBehind(s', c, v);
      EffectDuplicated(s.lay, s.vm, k1, s'.vm, tabs, role1, role', p, c, tc);
      if 0 < g < 512 {
        EntryForms(g);
        DecodeForms(g);
        if k1.info[g].refcount == 0 {
          FreeBefore(s.vm, k1, tabs[p], tc, c, g);
        }
      }
      DecodeForms(f);
      PermOf(s, tabs, role, p, v);
      PermOf(s', tabs[c := tc], role', c, v);
    } else {
      PermOf(s, tabs, role, p, v);
      PermOf(s', tabs[c := tc], role', c, v);
    }
  }

  /** The page behind a user page of `p`, 0 for none, with its record. */
  lemma ParentAt(s: State, tabs: TableMap, role: Roles, p: nat, v: nat) returns (f: nat)
    requires KInv(s, tabs, role) && p < 16 && Live(s, p) && 256 <= v < 1024
    ensures f < 512 && p in tabs && PageBehind(s, p, v) == if f == 0 then -1 else f
    ensures f == 0 ==> Slot(s.vm.mem, tabs[p], v) == 0
    ensures f != 0 ==>
              s.vm.info[f].refcount != 0
                && (Slot(s.vm.mem, tabs[p], v) == Full(f) || Slot(s.vm.mem, tabs[p], v) == ReadOnly(f))
  {
    BehindRole(s, tabs, role, p, v);
    var b := PageBehind(s, p, v);
    if b == -1 {
      return 0;
    }
    assert PageOk(s.lay, s.vm, tabs, role, b);
    return b;
  }

  lemma PermOf(s: State, tabs: TableMap, role: Roles, p: nat, v: nat)
    requires KInv(s, tabs, role) && p < 16 && Live(s, p) && v < 1024
    ensures p in tabs && PermBehind(s, p, v) == Decode(Slot(s.vm.mem, tabs[p], v), 0).perm
    ensures PageBehind(s, p, v) == Decode(Slot(s.vm.mem, tabs[p], v), 0).pn
  {
    Behind(s, tabs, role, p, v);
  }

  lemma EffectDuplicated(lay: Layout, k: VM, k1: VM, k': VM, tabs: TableMap, role1: Roles, role': Roles, p: int,
                         c: int, tc: Table)
    requires ForkEffect(lay, k, k1, k', tabs, role1, role', p, c, tc)
    ensures Duplicated(k, k1, tabs[p], tc, c)
  {
  }

  lemma ParentLookup(s: State, s': State, tabs: TableMap, role: Roles, k1: VM, role1: Roles, role': Roles, p: nat,
                     c: nat, tc: Table, a: Va)
    requires KInv(s, tabs, role) && KInv(s', tabs[c := tc], role') && p < 16 && Live(s, p) && Live(s', p) && p != c
    requires ForkEffect(s.lay, s.vm, k1, s'.vm, tabs, role1, role', p, c, tc)
    ensures Lookup(s'.vm.mem, Root(s', p), a) == Lookup(s.vm.mem, Root(s, p), a)
  {
    LiveWired(s.lay, s.vm, tabs, role, p);
    LiveWired(s'.lay, s'.vm, tabs[c := tc], role', p);
    assert forall u :: 0 <= u < 1024 ==> Slot(k1.mem, tabs[p], u) == Slot(s.vm.mem, tabs[p], u);
    assert forall u :: 0 <= u < 1024 ==> Slot(s'.vm.mem, tabs[p], u) == Slot(k1.mem, tabs[p], u);
    hide Inv, Wired, Slot, Lookup, ForkEffect;
    LookupWired(s.vm.mem, tabs[p], a);
    LookupWired(s'.vm.mem, tabs[p], a);
  }

  // ---------------------------------------------------------------- round trip

  /** Page by page, the child's exit restores the count the page had before the
      fork, for any state `k2` that differs from the fork's result in data only. */
  lemma RoundTripPage(lay: Layout, k: VM, k1: VM, k': VM, k2: VM, tabs: TableMap, role: Roles, role1: Roles,
                      role': Roles,
                      p: int, c: int, tc: Table, x: nat)
    requires Inv(lay, k, tabs, role) && x < 512 && tc.Distinct() && role1 == RolesWithTable(role, tc, c)
    requires ForkEffect(lay, k, k1, k', tabs, role1, role', p, c, tc)
    requires k2.info == k'.info && forall u :: 0 <= u < 1024 ==> Slot(k2.mem, tc, u) == Slot(k'.mem, tc, u)
    ensures Exited(k2, tc, role', c, x, 768).refcount == k.info[x].refcount
  {
    hide Inv, ForkEffect, RolesWithTable, Slot, Shares, ForkedSlot;
    RoleBounds(lay, k, tabs, role, x);
    RolesTable(role, tc, c);
    EffectOn(lay, k, k1, k', tabs, role1, role', p, c, tc, x);
    if k.info[x].refcount != 0 && role[x].Shared? {
      SharedBoth(k1, k', k2, tabs[p], tc, x, role[x].home);
    }
  }

  /** A fork's effect on page `x` and on the child's slots. */
  lemma EffectOn(lay: Layout, k: VM, k1: VM, k': VM, tabs: TableMap, role1: Roles, role': Roles, p: int, c: int,
                 tc: Table, x: nat)
    requires ForkEffect(lay, k, k1, k', tabs, role1, role', p, c, tc) && x < 512
    ensures p in tabs && c !in tabs && ForkedPage(k1, k', role1, role', tabs[p], tc, c, x, 768)
    ensures tc.Has(x) ==> k.info[x].refcount == 0 && k1.info[x] == PageInfo(c, 1)
    ensures !tc.Has(x) ==> k1.info[x] == k.info[x]
    ensures forall u :: 0 <= u < 1024 ==> ForkedSlot(k1, k', tabs[p], tc, u, 768)
    ensures forall y, u :: 0 <= y < 512 && 0 <= u < 1024 ==>
              Shares(k1.mem, tabs[p], y, u) == Shares(k.mem, tabs[p], y, u)
  {
    hide Inv;
  }

  lemma SharedBoth(k1: VM, k': VM, k2: VM, tp: Table, tc: Table, x: nat, u: nat)
    requires x < 512 && 256 <= u < 768 && ForkedSlot(k1, k', tp, tc, u, 768)
    requires Slot(k2.mem, tc, u) == Slot(k'.mem, tc, u)
    ensures Shares(k2.mem, tc, x, u) <==> Shares(k1.mem, tp, x, u)
  {
    hide Full, ReadOnly, Frame, PteFlags, Present, Writable, UserOk;
    EntryForms(x);
    var e' := Slot(k'.mem, tc, u);
    if Frame(e') < 512 {
      EntryForms(Frame(e'));
    }
    hide Slot;
  }

  /** Steps that change neither records nor mappings. */
  predicate Quiet(e: Event) {
    e.Store? || e.call == GetPid || e.call == Yield || e.call == Timer
  }

  ghost predicate QuietRun(ss: seq<State>, es: seq<Event>) {
    && |ss| == |es| + 1
    && forall i :: 0 <= i < |es| ==> Quiet(es[i]) && Enabled(ss[i], es[i]) && Step(ss[i], es[i]) == Ok(ss[i + 1])
  }

  lemma QuietTrap(s: State, s': State, e: Event)
    requires Quiet(e) && e.Trap? && Enabled(s, e) && Step(s, e) == Ok(s')
    ensures s'.lay == s.lay && s'.vm == s.vm && s'.current < 16
    ensures forall q :: 0 <= q < 16 ==>
              s'.procs[q].pagetable == s.procs[q].pagetable && s'.procs[q].state == s.procs[q].state
  {
    hide NextRunnable, SetPagetableOk, CheckVirtualMemory;
  }

  lemma QuietStep(s: State, s': State, tabs: TableMap, role: Roles, e: Event)
    requires KInv(s, tabs, role) && Quiet(e) && Enabled(s, e) && Step(s, e) == Ok(s')
    ensures KInv(s', tabs, role) && s'.vm.info == s.vm.info && s'.lay == s.lay
    ensures SlotsSame(s.lay, s.vm.mem, s'.vm.mem, tabs)
    ensures forall q :: 0 <= q < 16 ==>
              s'.procs[q].pagetable == s.procs[q].pagetable && s'.procs[q].state == s.procs[q].state
  {
    hide Inv, Exact, Owned, Step, SlotsSame;
    if e.Store? {
      StoreStepKeeps(Loose, s, tabs, role, e);
      StoreSlots(s, s', tabs, role, e);
    } else {
      QuietTrap(s, s', e);
      SameSpaces(Loose, s, s', tabs, role);
      SlotsSelf(s.lay, s.vm, tabs, role);
    }
  }

  lemma StoreSlots(s: State, s': State, tabs: TableMap, role: Roles, e: Event)
    requires KInv(s, tabs, role) && Enabled(s, e) && e.Store? && Step(s, e) == Ok(s')
    ensures s'.vm.info == s.vm.info && s'.lay == s.lay && s'.procs == s.procs
            && SlotsSame(s.lay, s.vm.mem, s'.vm.mem, tabs)
  {
    assert Live(s, s.current);
    hide Inv, Exact, Owned, UserWritable, StoreWord, SlotsSame;
    StoreKeeps(s.lay, s.vm, tabs, role, s.current, e.va, e.w);
  }

  lemma SlotsSelf(lay: Layout, k: VM, tabs: TableMap, role: Roles)
    requires Inv(lay, k, tabs, role)
    ensures SlotsSame(lay, k.mem, k.mem, tabs)
  {
    forall q | q in tabs ensures Wired(k.mem, tabs[q]) {
      LiveWired(lay, k, tabs, role, q);
    }
  }

  lemma {:induction false} QuietRunKeeps(ss: seq<State>, es: seq<Event>, tabs: TableMap, role: Roles)
    requires QuietRun(ss, es) && KInv(ss[0], tabs, role)
    ensures var s' := ss[|es|];
            && KInv(s', tabs, role) && s'.vm.info == ss[0].vm.info && s'.lay == ss[0].lay
            && (forall q, u :: q in tabs && 0 <= u < 1024 ==>
              Slot(s'.vm.mem, tabs[q], u) == Slot(ss[0].vm.mem, tabs[q], u))
            && (forall q :: 0 <= q < 16 ==> s'.procs[q].pagetable == ss[0].procs[q].pagetable)
    decreases |es|
  {
    if |es| > 0 {
      hide KInv, Slot, Enabled, Step, Quiet, Wired, KernelTableOk;
      assert Step(ss[0], es[0]) == Ok(ss[0 + 1]);
      QuietStep(ss[0], ss[1], tabs, role, es[0]);
      forall i | 0 <= i < |es[1..]|
        ensures Quiet(es[1..][i]) && Enabled(ss[1..][i], es[1..][i])
                && Step(ss[1..][i], es[1..][i]) == Ok(ss[1..][i + 1])
      {
        var j := i + 1;
        assert Step(ss[j], es[j]) == Ok(ss[j + 1]);
      }
      QuietRunKeeps(ss[1..], es[1..], tabs, role);
    }
  }

  /** Fork, then any run of user stores, yields, timer interrupts and getpids by
      anyone, then the child's exit: every page's count is what it was before. */
  lemma ForkExitRoundTrip(s: State, tabs: TableMap, role: Roles, ss: seq<State>, es: seq<Event>)
    requires KInv(s, tabs, role) && Live(s, s.current) && FreeSlot(s.procs, 1) < 16
    requires ForkGuard(s.vm, TablesOf(s, s.current))
    requires QuietRun(ss, es) && SysFork(s) == Ok(ss[0])
    requires ss[|es|].current == FreeSlot(s.procs, 1)
    ensures forall x :: 0 <= x < 512 ==> SysExit(ss[|es|]).vm.info[x].refcount == s.vm.info[x].refcount
  {
    assert |ss| == |es| + 1;
    hide KInv, ForkEffect, FreeSlot, ForkGuard, SysFork, TablesOf, RolesWithTable, QuietRun, Slot, ExitSpace, Exited;
    var c := FreeSlot(s.procs, 1);
    var s', tc, role', k1, role1 := ForkResult(s, tabs, role);
    QuietRunKeeps(ss, es, tabs[c := tc], role');
    var s2 := ss[|es|];
    KInvSpaces(s, tabs, role);
    KInvSpaces(s2, tabs[c := tc], role');
    ExitForm(s2.lay, s2.vm, tabs[c := tc], role', c);
    forall x | 0 <= x < 512 ensures Exited(s2.vm, tc, role', c, x, 768).refcount == s.vm.info[x].refcount {
      RoundTripPage(s.lay, s.vm, k1, s'.vm, s2.vm, tabs, role, role1, role', s.current, c, tc, x);
    }
  }

  lemma KInvSpaces(s: State, tabs: TableMap, role: Roles)
    requires KInv(s, tabs, role)
    ensures Inv(s.lay, s.vm, tabs, role)
  {
  }
}
