/** INT_SYS_EXIT (kernel.c:399-432): the table pages are released first, then the
    dead table is walked and every user page it maps is released or its count
    lowered. */
module Exits {
  import opened X86
  import opened Paging
  import opened Tables
  import opened Spaces
  import opened Alloc
  import opened Forks

  // ---------------------------------------------------------------- operation

  const RELEASED := PageInfo(0, 0)

  function SetInfo(info: Info, pn: nat, i: PageInfo): Info {
    if pn < 512 then info[pn := i] else info
  }

  function ReleaseTable(info: Info, t: Table): Info {
    SetInfo(SetInfo(SetInfo(SetInfo(SetInfo(info, t.l1, RELEASED), t.l2, RELEASED), t.l3, RELEASED), t.lo, RELEASED),
      t.hi, RELEASED)
  }

  /** One iteration of the walk; the owner of a read-only page stays on record
      even when its count reaches 0. */
  function ExitPage(info: Info, mem: Memory, t: Table, pid: int, v: nat): Info
    requires v < 768
  {
    var vam := Lookup(mem, t.l1, v * 4096);
    if vam.pn <= 0 || vam.pn >= 512 then
      info
    else
      var i := info[vam.pn];
      if !Writable(vam.perm) && i.refcount != 0 then
        info[vam.pn := i.(refcount := ToInt8(i.refcount - 1))]
      else if Writable(vam.perm) && i.owner == pid && i.refcount != 0 && !t.Has(vam.pn) then
        info[vam.pn := RELEASED]
      else
        info
  }

  function ExitPages(info: Info, mem: Memory, t: Table, pid: int, v: nat): Info
    requires v <= 768
    decreases 768 - v
  {
    if v == 768 then info else ExitPages(ExitPage(info, mem, t, pid, v), mem, t, pid, v + 1)
  }

  function ExitSpace(k: VM, root: nat, pid: int): VM {
    var t := TableAt(k.mem, root);
    VM(k.mem, ExitPages(ReleaseTable(k.info, t), k.mem, t, pid, 256))
  }

  // --------------------------------------------------------------- closed form

  /** The record of page `x` once the walk of process `p`'s table has reached `v`. */
  function Exited(k: VM, t: Table, role: Roles, p: int, x: nat, v: nat): PageInfo
    requires x < 512
  {
    match role[x]
    case TablePage(q, _) => if q == p then RELEASED else k.info[x]
    case Private(q, u) => if q == p && u < v then RELEASED else k.info[x]
    case Shared(u) => if u < v && Shares(k.mem, t, x, u) then PageInfo(k.info[x].owner, k.info[x].refcount - 1)
        else k.info[x]
    case _ => k.info[x]
  }

  ghost predicate Exiting(lay: Layout, k: VM, tabs: TableMap, role: Roles, p: int, info: Info, v: nat) {
    && p in tabs && Inv(lay, k, tabs, role)
    && forall x :: 0 <= x < 512 ==> info[x] == Exited(k, tabs[p], role, p, x, v)
  }

  lemma ReleaseStart(lay: Layout, k: VM, tabs: TableMap, role: Roles, p: int)
    requires Inv(lay, k, tabs, role) && p in tabs
    ensures Exiting(lay, k, tabs, role, p, ReleaseTable(k.info, tabs[p]), 256)
  {
    var t, info := tabs[p], ReleaseTable(k.info, tabs[p]);
    TableInUse(lay, k, tabs, role, p);
    hide Slot, Wired, KernelTableOk, SpacesOk, SlotsOk;
    forall x | 0 <= x < 512 ensures info[x] == Exited(k, t, role, p, x, 256) {
      assert PageOk(lay, k, tabs, role, x);
      if role[x].TablePage? && role[x].pid == p {
        assert t.Nth(role[x].level) == x;
        assert t.Has(x);
      }
    }
  }

  lemma CountDown(n: int)
    ensures 1 <= n <= 127 ==> ToInt8(n - 1) == n - 1
  {
  }

  /** What one iteration does, by what the dead process mapped there. */
  lemma ExitCases(info: Info, mem: Memory, t: Table, pid: int, v: nat, f: nat)
    requires Wired(mem, t) && 256 <= v < 768 && 0 < f < 512
    ensures Slot(mem, t, v) == 0 ==> ExitPage(info, mem, t, pid, v) == info
    ensures Slot(mem, t, v) == Full(f) && info[f] == PageInfo(pid, 1) && !t.Has(f) ==>
              ExitPage(info, mem, t, pid, v) == info[f := RELEASED]
    ensures Slot(mem, t, v) == ReadOnly(f) && 1 <= info[f].refcount <= 127 ==>
              ExitPage(info, mem, t, pid, v) == info[f := PageInfo(info[f].owner, info[f].refcount - 1)]
  {
    hide Lookup, Wired, Slot, Decode, Full, ReadOnly, Writable, ToInt8, MapArgs, LeafEntry;
    CountDown(info[f].refcount);
    UserLookup(mem, t, v);
    DecodeForms(f);
    FormArgs(v, f);
  }

  lemma ExitStep(lay: Layout, k: VM, tabs: TableMap, role: Roles, p: int, info: Info, v: nat)
    requires Exiting(lay, k, tabs, role, p, info, v) && 256 <= v < 768
    ensures Exiting(lay, k, tabs, role, p, ExitPage(info, k.mem, tabs[p], p, v), v + 1)
  {
    hide Inv, Wired, Slot, ExitPage, Full, ReadOnly;
    var t := tabs[p];
    var f := ParentSlot(lay, k, tabs, role, p, v);
    LiveWired(lay, k, tabs, role, p);
    TableInUse(lay, k, tabs, role, p);
    var e := Slot(k.mem, t, v);
    ZeroIsSystem(lay, k, tabs, role);
    if e != 0 {
      PageRange(lay, k, tabs, role, f);
      ExitCases(info, k.mem, t, p, v, f);
    } else {
      ExitCases(info, k.mem, t, p, v, 1);
    }
    var info' := ExitPage(info, k.mem, t, p, v);
    var w := v + 1;
    forall x | 0 <= x < 512 ensures info'[x] == Exited(k, t, role, p, x, w) {
      ExitedNext(lay, k, tabs, role, p, v, f, x);
    }
  }

  lemma ZeroIsSystem(lay: Layout, k: VM, tabs: TableMap, role: Roles)
    requires Inv(lay, k, tabs, role)
    ensures role[0] == System
  {
    assert PageOk(lay, k, tabs, role, 0);
  }

  lemma PageRange(lay: Layout, k: VM, tabs: TableMap, role: Roles, f: nat)
    requires Inv(lay, k, tabs, role) && f < 512
    ensures role[f].Shared? ==> 1 <= k.info[f].refcount <= 127
    ensures role[f].Private? ==> k.info[f] == PageInfo(role[f].pid, 1)
  {
    assert PageOk(lay, k, tabs, role, f);
  }

  lemma ExitedNext(lay: Layout, k: VM, tabs: TableMap, role: Roles, p: int, v: nat, f: nat, x: nat)
    requires Inv(lay, k, tabs, role) && p in tabs && 256 <= v < 768 && f < 512 && x < 512
    requires var e := Slot(k.mem, tabs[p], v);
             || e == 0
             || (e == Full(f) && role[f] == Private(p, v))
             || (e == ReadOnly(f) && role[f] == Shared(v))
    ensures Exited(k, tabs[p], role, p, x, v + 1)
         == if Slot(k.mem, tabs[p], v) != 0 && x == f then
              (if Slot(k.mem, tabs[p], v) == Full(f) then RELEASED
                else PageInfo(k.info[f].owner, k.info[f].refcount - 1))
            else Exited(k, tabs[p], role, p, x, v)
    ensures Slot(k.mem, tabs[p], v) != 0 ==> Exited(k, tabs[p], role, p, f, v) == k.info[f]
  {
    hide Slot, Inv, Full, ReadOnly;
    EntriesDiffer(f, x);
    PrivateAt(lay, k, tabs, role, x);
  }

  lemma PrivateAt(lay: Layout, k: VM, tabs: TableMap, role: Roles, x: nat)
    requires Inv(lay, k, tabs, role) && x < 512
    ensures role[x].Private? ==>
              role[x].pid in tabs && role[x].vpn < 1024 && Slot(k.mem, tabs[role[x].pid], role[x].vpn) == Full(x)
  {
    assert PageOk(lay, k, tabs, role, x);
  }

  lemma {:induction false} ExitLoop(lay: Layout, k: VM, tabs: TableMap, role: Roles, p: int, info: Info, v: nat)
    requires Exiting(lay, k, tabs, role, p, info, v) && 256 <= v <= 768
    ensures Exiting(lay, k, tabs, role, p, ExitPages(info, k.mem, tabs[p], p, v), 768)
    decreases 768 - v
  {
    hide Inv, ExitPage, Exited;
    if v < 768 {
      ExitStep(lay, k, tabs, role, p, info, v);
      ExitLoop(lay, k, tabs, role, p, ExitPage(info, k.mem, tabs[p], p, v), v + 1);
    }
  }

  /** Exit computes the closed form although it walks a table whose pages it has
      already released. */
  lemma ExitForm(lay: Layout, k: VM, tabs: TableMap, role: Roles, p: int)
    requires Inv(lay, k, tabs, role) && p in tabs
    ensures var k' := ExitSpace(k, tabs[p].l1, p);
            && k'.mem == k.mem
            && forall x :: 0 <= x < 512 ==> k'.info[x] == Exited(k, tabs[p], role, p, x, 768)
  {
    LiveWired(lay, k, tabs, role, p);
    TableAtWired(k.mem, tabs[p]);
    hide Inv, Exited, ExitPages, ReleaseTable, TableAt, Wired;
    ReleaseStart(lay, k, tabs, role, p);
    ExitLoop(lay, k, tabs, role, p, ReleaseTable(k.info, tabs[p]), 256);
  }

  // ----------------------------------------------------------------- invariant

  function RoleAfterExit(k: VM, t: Table, role: Roles, p: int, x: nat): Role
    requires x < 512
  {
    match role[x]
    case TablePage(q, _) => if q == p then Free else role[x]
    case Private(q, u) => if q != p then role[x] else if u < 768 then Free else Lost
    case Shared(u) => if Shares(k.mem, t, x, u) && k.info[x].refcount == 1 then Free else role[x]
    case _ => role[x]
  }

  function RolesAfterExit(k: VM, t: Table, role: Roles, p: int): (r: Roles)
    ensures forall x :: 0 <= x < 512 ==> r[x] == RoleAfterExit(k, t, role, p, x)
  {
    seq(512, x requires 0 <= x < 512 => RoleAfterExit(k, t, role, p, x))
  }

  lemma SharersWithout(mem: Memory, tabs: TableMap, p: int, pn: nat, u: nat)
    requires pn < 512 && p in tabs
    ensures Sharers(mem, tabs - {p}, pn, u) == Sharers(mem, tabs, pn, u) - {p}
    ensures p in Sharers(mem, tabs, pn, u) <==> Shares(mem, tabs[p], pn, u)
    ensures |Sharers(mem, tabs - {p}, pn, u)| == |Sharers(mem, tabs, pn, u)| - if Shares(mem, tabs[p], pn, u) then 1
            else 0
  {
    var a, b := Sharers(mem, tabs - {p}, pn, u), Sharers(mem, tabs, pn, u);
    hide Shares;
    assert a == b - {p};
  }

  /** Owned before and after differ only in pages that outlive their owner. */
  predicate OutlivesOwner(k: VM, role: Roles, p: int, x: nat)
    requires x < 512
  {
    role[x].Shared? && k.info[x].owner == p && k.info[x].refcount >= 2
  }

  ghost predicate ExitedTo(k: VM, k': VM, t: Table, role: Roles, p: int) {
    k'.mem == k.mem && forall x :: 0 <= x < 512 ==> k'.info[x] == Exited(k, t, role, p, x, 768)
  }

  lemma ExitPageOk(lay: Layout, k: VM, k': VM, tabs: TableMap, role: Roles, p: int, x: nat)
    requires Inv(lay, k, tabs, role) && p in tabs && x < 512 && ExitedTo(k, k', tabs[p], role, p)
    ensures var tabs', role' := tabs - {p}, RolesAfterExit(k, tabs[p], role, p);
            && PageOk(lay, k', tabs', role', x)
            && (Exact(k, tabs, role) ==> ExactAt(k', tabs', role', x))
            && (Exact(k, tabs, role) && OwnedAt(k, tabs, role, x) ==>
                  (OwnedAt(k', tabs', role', x) <==> !OutlivesOwner(k, role, p, x)))
  {
    assert PageOk(lay, k, tabs, role, x);
    hide Inv, Slot, Sharers, IsSystem, InitInfo, Exact, RolesAfterExit, Full, ReadOnly, Shares;
    PidRange(lay, k, tabs, role, p);
    if Exact(k, tabs, role) {
      ExactPage(lay, k, tabs, role, x);
    }
    if role[x].Shared? {
      SharersWithout(k.mem, tabs, p, x, role[x].home);
    }
  }

  lemma PidRange(lay: Layout, k: VM, tabs: TableMap, role: Roles, p: int)
    requires Inv(lay, k, tabs, role) && p in tabs
    ensures 1 <= p < 16
  {
    assert SpaceOk(k.mem, tabs, role, p);
  }

  lemma ExactPage(lay: Layout, k: VM, tabs: TableMap, role: Roles, x: nat)
    requires Inv(lay, k, tabs, role) && Exact(k, tabs, role) && x < 512
    ensures ExactAt(k, tabs, role, x) && (role[x].Private? ==> role[x].vpn < 768)
  {
    PrivateAt(lay, k, tabs, role, x);
    EntriesDiffer(x, x);
    assert ExactAt(k, tabs, role, x);
    hide Inv, Slot, Full, ReadOnly;
  }

  lemma ExitSlots(lay: Layout, k: VM, tabs: TableMap, role: Roles, p: int, q: int, u: nat)
    requires Inv(lay, k, tabs, role) && p in tabs && q in tabs && q != p && u < 1024
    ensures SlotOk(k.mem, tabs[q], RolesAfterExit(k, tabs[p], role, p), q, u)
  {
    assert SlotOk(k.mem, tabs[q], role, q, u);
    var e := Slot(k.mem, tabs[q], u);
    hide Wired, KernelTableOk, SpacesOk, SlotsOk, Slot;
    if u >= 256 && MapsShared(e, role, u) {
      var x := Frame(e);
      assert PageOk(lay, k, tabs, role, x);
      if Shares(k.mem, tabs[p], x, u) {
        assert {p, q} <= Sharers(k.mem, tabs, x, u);
        SubsetCard({p, q}, Sharers(k.mem, tabs, x, u));
      }
    }
  }

  lemma ExitSpaces(lay: Layout, k: VM, tabs: TableMap, role: Roles, p: int)
    requires Inv(lay, k, tabs, role) && p in tabs
    ensures SpacesOk(k.mem, tabs - {p}, RolesAfterExit(k, tabs[p], role, p))
    ensures SlotsOk(k.mem, tabs - {p}, RolesAfterExit(k, tabs[p], role, p))
  {
    var tabs', role' := tabs - {p}, RolesAfterExit(k, tabs[p], role, p);
    hide Wired, Slot, KernelTableOk, SlotOk, PagesOk;
    forall q | q in tabs' ensures SpaceOk(k.mem, tabs', role', q) {
      assert SpaceOk(k.mem, tabs, role, q);
    }
    forall q, u | q in tabs' && 0 <= u < 1024 ensures SlotOk(k.mem, tabs'[q], role', q, u) {
      ExitSlots(lay, k, tabs, role, p, q, u);
    }
  }

  /** Exit keeps the invariant and exactness for the processes that remain; every
      shared page keeps a live owner exactly when none outlives its owner. */
  lemma ExitKeeps(lay: Layout, k: VM, tabs: TableMap, role: Roles, p: int)
    requires Inv(lay, k, tabs, role) && p in tabs
    ensures var k' := ExitSpace(k, tabs[p].l1, p);
            var tabs', role' := tabs - {p}, RolesAfterExit(k, tabs[p], role, p);
            && ExitedTo(k, k', tabs[p], role, p)
            && Inv(lay, k', tabs', role')
            && (Exact(k, tabs, role) ==> Exact(k', tabs', role'))
            && (Exact(k, tabs, role) && Owned(k, tabs, role) ==>
                  (Owned(k', tabs', role') <==> forall x :: 0 <= x < 512 ==> !OutlivesOwner(k, role, p, x)))
  {
    hide PageOk, ExactAt, OwnedAt, Wired, Slot, KernelTableOk, ExitSpace, SlotOk, Exited, OutlivesOwner,
         RoleAfterExit;
    ExitForm(lay, k, tabs, role, p);
    var k' := ExitSpace(k, tabs[p].l1, p);
    var tabs', role' := tabs - {p}, RolesAfterExit(k, tabs[p], role, p);
    forall x | 0 <= x < 512
      ensures PageOk(lay, k', tabs', role', x)
      ensures Exact(k, tabs, role) ==> ExactAt(k', tabs', role', x)
      ensures Exact(k, tabs, role) && OwnedAt(k, tabs, role, x) ==>
                (OwnedAt(k', tabs', role', x) <==> !OutlivesOwner(k, role, p, x))
    {
      ExitPageOk(lay, k, k', tabs, role, p, x);
    }
    ExitSpaces(lay, k, tabs, role, p);
  }
}
