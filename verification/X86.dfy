/** x86-64.h and the memory constants of kernel.h: words, pages, page-table
    entries and the parts of a paged virtual address. Bits are written out as
    arithmetic on unbounded integers. */
module X86 {
  const MEMSIZE_PHYSICAL := 0x200000
  const PROC_START_ADDR := 0x100000
  const MEMSIZE_VIRTUAL := 0x300000
  const PTE_P := 1
  const PTE_W := 2
  const PTE_U := 4

  type Word = w: int | 0 <= w < 0x1_0000_0000_0000_0000

  /** A 48-bit virtual address; `pageindex` ignores higher bits. */
  type Va = a: int | 0 <= a < 0x1_0000_0000_0000

  /** A physical page viewed as 512 words: data, or the entries of a table. */
  type Page = p: seq<Word> | |p| == 512 witness seq(512, _ => 0)

  function ZeroPage(): (p: Page)
    ensures forall i :: 0 <= i < 512 ==> p[i] == 0
  {
    seq(512, _ => 0)
  }

  /** The 512 pages of installed physical memory. */
  type Memory = m: seq<Page> | |m| == 512 witness seq<Page>(512, _ => ZeroPage())

  function PageIndex(va: Va, level: nat): (i: nat)
    requires level <= 3
    ensures i < 512
  {
    match level
    case 0 => va / 0x80_0000_0000 % 512
    case 1 => va / 0x4000_0000 % 512
    case 2 => va / 0x20_0000 % 512
    case _ => va / 0x1000 % 512
  }

  /** PAGENUMBER of an entry or of a physical address. */
  function Frame(e: Word): nat {
    e / 4096
  }

  function PteFlags(e: Word): nat {
    e % 4096
  }

  predicate Present(e: Word) {
    e % 2 == 1
  }

  predicate Writable(e: Word) {
    e / 2 % 2 == 1
  }

  predicate UserOk(e: Word) {
    e / 4 % 2 == 1
  }

  /** A word is its bits above the permission bits plus those three bits. */
  lemma Bits(e: Word, q: int, p: int, w: int, u: int)
    requires 0 <= p <= 1 && 0 <= w <= 1 && 0 <= u <= 1
    requires e == 8 * q + 4 * u + 2 * w + p
    ensures e / 8 == q && e % 2 == p && e / 2 % 2 == w && e / 4 % 2 == u
    ensures e / 4096 == q / 512 && e % 4096 == q % 512 * 8 + 4 * u + 2 * w + p
  {
    DivMod(e, 8, q, 4 * u + 2 * w + p);
    DivMod(e, 2, 4 * q + 2 * u + w, p);
    DivMod(4 * q + 2 * u + w, 2, 2 * q + u, w);
    DivMod(e, 4, 2 * q + u, 2 * w + p);
    DivMod(2 * q + u, 2, q, u);
    DivMod(e, 4096, q / 512, q % 512 * 8 + 4 * u + 2 * w + p);
  }

  lemma MulGrows(k: int, d: int)
    requires k >= 1 && d >= 1
    ensures k * d >= d
  {
    assert (k - 1) * d >= 0;
  }

  lemma SmallMultiple(k: int, d: int)
    requires -d < k * d < d
    ensures k == 0
  {
    if k >= 1 {
      MulGrows(k, d);
    } else if k <= -1 {
      MulGrows(-k, d);
    }
  }

  lemma DivMod(e: int, d: int, q: int, r: int)
    requires 0 <= r < d && e == q * d + r
    ensures e / d == q && e % d == r
  {
    assert e / d * d + e % d == e;
    assert (e / d - q) * d == r - e % d;
    SmallMultiple(e / d - q, d);
  }

  lemma BitsOf(e: Word)
    ensures e == 8 * (e / 8) + 4 * (e / 4 % 2) + 2 * (e / 2 % 2) + e % 2
  {
    assert e / 4 == e / 2 / 2;
    assert e / 8 == e / 4 / 2;
  }

  function Bit(b: bool): (i: int)
  {
    if b then 1 else 0
  }

  /** `e & ~(pe & (PTE_W | PTE_U))`, where `w` and `u` are those bits of `pe`. */
  function ClearBits(e: Word, w: bool, u: bool): (r: Word)
    ensures Present(r) == Present(e) && Frame(r) == Frame(e)
    ensures Writable(r) == (Writable(e) && !w)
    ensures UserOk(r) == (UserOk(e) && !u)
    ensures !(w && Writable(e)) && !(u && UserOk(e)) ==> r == e
  {
    BitsOf(e);
    Bits(e, e / 8, e % 2, e / 2 % 2, e / 4 % 2);
    var r := e - 2 * Bit(w && Writable(e)) - 4 * Bit(u && UserOk(e));
    Bits(r, e / 8, e % 2, Bit(Writable(e) && !w), Bit(UserOk(e) && !u));
    r
  }

  /** The four indices and the offset are the address, nine bits each and twelve. */
  lemma IndicesOf(va: Va)
    ensures va == ((PageIndex(va, 0) * 512 + PageIndex(va, 1)) * 512 + PageIndex(va, 2)) * 0x20_0000
                  + PageIndex(va, 3) * 4096 + va % 4096
  {
    var page, region, part := va / 0x1000, va / 0x20_0000, va / 0x4000_0000;
    assert va == page * 4096 + va % 4096;
    assert region == page / 512 && page == region * 512 + page % 512;
    assert part == region / 512 && region == part * 512 + region % 512;
    assert va / 0x80_0000_0000 == part / 512 && part == part / 512 * 512 + part % 512;
    assert part / 512 < 512;
  }

  /** Two addresses lie on the same page iff they share the 2 MB region and
      the last-level index. */
  lemma SamePage(a: Va, b: Va)
    ensures a / 4096 == b / 4096
       <==> a / 0x20_0000 == b / 0x20_0000 && PageIndex(a, 3) == PageIndex(b, 3)
  {
    assert a / 0x20_0000 == a / 4096 / 512;
    assert b / 0x20_0000 == b / 4096 / 512;
  }

  /** The three upper indices depend only on the 2 MB region. */
  lemma UpperIndices(a: Va, b: Va)
    requires a / 0x20_0000 == b / 0x20_0000
    ensures forall l: nat :: l <= 2 ==> PageIndex(a, l) == PageIndex(b, l)
  {
    assert a / 0x4000_0000 == a / 0x20_0000 / 512;
    assert b / 0x4000_0000 == b / 0x20_0000 / 512;
    assert a / 0x80_0000_0000 == a / 0x4000_0000 / 512;
    assert b / 0x80_0000_0000 == b / 0x4000_0000 / 512;
  }
}
