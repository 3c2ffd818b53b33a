/** The bump allocator of contracts: a `next` pointer that only goes back when everything, or the
    block handed out last, is freed. */
module BumpAllocation {
  import opened Common
  import opened Bits

  /** Words of `usize` on wasm32. */
  const WORD: nat := 32
  const PAGE_SIZE: nat := 65536

  /** The mask form of rounding up, in wrapping 32-bit arithmetic. */
  function AlignUp(addr: nat, align: nat): nat
    requires 0 < align <= Pow2(WORD)
  {
    RoundUp(addr, align, WORD)
  }

  /** Division by the page size, rounded up, by shift and mask. */
  function PagesToRequest(space: nat): nat {
    space / PAGE_SIZE + (if And(space, 0xffff, WORD) != 0 then 1 else 0)
  }

  lemma PageBits(space: nat)
    ensures And(space, 0xffff, WORD) == space % PAGE_SIZE
  {
    assert Pow2(4) == 16;
    assert Pow2(8) == 256;
    assert Pow2(12) == 4096;
    assert Pow2(16) == PAGE_SIZE;
    MaskLow(space, 16, WORD, 0xffff);
    LowIsRemainder(space, 16);
  }

  /** `align_up` as the allocator calls it. */
  method Align(addr: nat, ghost k: nat, align: nat) returns (r: nat)
    requires k < WORD && align == Pow2(k) && addr <= Pow2(WORD - 1)
    ensures Aligned(r, k) && addr <= r < addr + align
    ensures forall a: nat :: addr <= a && Aligned(a, k) ==> r <= a
  {
    Pow2Grows(k, WORD - 1);
    assert Pow2(WORD) == 2 * Pow2(WORD - 1);
    ghost var up := RoundUpAligns(addr, k, WORD);
    r := AlignUp(addr, align);
  }

  /** The pages requested are the fewest that cover the space. */
  lemma PagesCover(space: nat)
    ensures PagesToRequest(space) * PAGE_SIZE >= space
    ensures PagesToRequest(space) > 0 ==> (PagesToRequest(space) - 1) * PAGE_SIZE < space
  {
    PageBits(space);
  }

  /** A block is aligned to two to the power `align`. */
  datatype Block = Block(size: nat, align: nat)

  lemma OneFewer(live: map<nat, Block>, p: nat)
    requires p in live
    ensures |live - {p}| == |live| - 1
  {
    assert live.Keys == (live - {p}).Keys + {p};
  }

  class BumpAllocator {
    var next: nat
    var heapStart: nat
    var heapEnd: nat
    var allocations: nat
    var lastAlloc: nat

    /** The linear memory: where the heap begins, how many pages there are, and the limit up to
        which it can grow. */
    const heapBase: nat
    const maxPages: nat
    var pages: nat

    /** The blocks handed out and not yet freed, by address. */
    ghost var live: map<nat, Block>

    /** What the host guarantees: a heap inside the memory, and a memory of at most half the
        address space. */
    ghost predicate HostOk()
      reads this
    {
      0 < pages <= maxPages && maxPages * PAGE_SIZE <= Pow2(WORD - 1) && heapBase <= pages * PAGE_SIZE
    }

    ghost predicate BlockOk(p: nat)
      reads this
      requires p in live
    {
      && live[p].size > 0
      && heapStart <= p && p + live[p].size <= next
    }

    /** Every live block is aligned as it was asked to be. */
    ghost predicate AllAligned()
      reads this
    {
      forall p {:trigger live[p]} :: p in live ==> Aligned(p, live[p].align)
    }

    ghost predicate Valid()
      reads this
    {
      && HostOk()
      && allocations == |live|
      && (heapEnd == 0 ==> live == map[])
      && (heapEnd != 0 ==>
            && heapStart == heapBase && heapEnd == pages * PAGE_SIZE
            && heapStart <= lastAlloc <= next <= heapEnd)
      && (forall p :: p in live ==> BlockOk(p))
      && (forall p, q :: p in live && q in live && p < q ==> p + live[p].size <= q)
      // The block handed out last lies above all others, as long as it is live.
      && (lastAlloc in live ==> forall p :: p in live && p != lastAlloc ==> p + live[p].size <= lastAlloc)
    }

    constructor (heapBase: nat, pages: nat, maxPages: nat)
      requires 0 < pages <= maxPages && maxPages * PAGE_SIZE <= Pow2(WORD - 1) && heapBase <= pages * PAGE_SIZE
      ensures Valid() && live == map[]
    {
      next, heapStart, heapEnd, allocations, lastAlloc := 0, 0, 0, 0, 0;
      this.heapBase, this.pages, this.maxPages := heapBase, pages, maxPages;
      live := map[];
    }

    /** On the first allocation, the real addresses replace the dummy values. */
    method Initialize()
      requires Valid()
      modifies this`next, this`heapStart, this`lastAlloc, this`heapEnd
      ensures Valid() && heapEnd != 0
      ensures old(heapEnd) != 0 ==>
              next == old(next) && heapStart == old(heapStart) && lastAlloc == old(lastAlloc) && heapEnd == old(heapEnd)
      ensures old(heapEnd) == 0 ==> next == heapBase
    {
      if heapEnd == 0 {
        next, heapStart, lastAlloc := heapBase, heapBase, heapBase;
        heapEnd := pages * PAGE_SIZE;
      }
    }

    /** Grows the memory, up to the limit of the host. */
    method MemoryGrow(delta: nat) returns (ok: bool)
      modifies this`pages
      ensures ok <==> old(pages) + delta <= maxPages
      ensures pages == if ok then old(pages) + delta else old(pages)
    {
      ok := pages + delta <= maxPages;
      if ok {
        pages := pages + delta;
      }
    }

    /** Hands out the least aligned address from `next` on, or nothing if the memory cannot grow
        to hold the block. Live blocks stay disjoint and inside the heap. */
    method Alloc(size: nat, ghost k: nat, align: nat) returns (r: Option<nat>)
      requires Valid() && size > 0 && k < WORD && align == Pow2(k)
      modifies this
      ensures true == Valid()
      ensures r.None? ==> live == old(live)
      ensures r.Some? ==> r.value !in old(live) && live == old(live)[r.value := Block(size, k)]
      ensures r.Some? ==> Aligned(r.value, k)
      ensures r.Some? ==>
                var from := old(if heapEnd == 0 then heapBase else next);
                from <= r.value && forall a: nat :: from <= a && Aligned(a, k) ==> r.value <= a
      ensures r.Some? ==> next == r.value + size && lastAlloc == r.value && JustEnough(old(pages), next)
      ensures r.None? ==> next == old(if heapEnd == 0 then heapBase else next) && pages == old(pages)
      ensures old(AllAligned()) ==> AllAligned()
      ensures r.None? <==>
                var from := old(if heapEnd == 0 then heapBase else next);
                forall a: nat :: from <= a && Aligned(a, k) ==> maxPages * PAGE_SIZE < a + size
      ensures r.None? ==> maxPages * PAGE_SIZE < old(if heapEnd == 0 then heapBase else next) + align + size
    {
      Initialize();
      var allocStart := Align(next, k, align);
      var ok := Reserve(allocStart, size);
      if !ok {
        return None;
      }
      Place(allocStart, size, k);
      r := Some(allocStart);
    }

    /** The memory has grown to hold `end`, and by no page more than that takes. */
    ghost predicate JustEnough(before: nat, end: nat)
      reads this
    {
      before <= pages && end <= pages * PAGE_SIZE && (before < pages ==> (pages - 1) * PAGE_SIZE < end)
    }

    /** Makes room for a block: its end fits a word, and the heap reaches it. */
    method Reserve(allocStart: nat, size: nat) returns (ok: bool)
      requires Valid() && heapEnd != 0
      modifies this`heapEnd, this`pages
      ensures true == Valid()
      ensures heapEnd != 0 && (ok ==> allocStart + size <= heapEnd && JustEnough(old(pages), allocStart + size))
      ensures !ok ==> heapEnd == old(heapEnd) && pages == old(pages) && maxPages * PAGE_SIZE < allocStart + size
    {
      if allocStart + size >= Pow2(WORD) {
        assert Pow2(WORD) == 2 * Pow2(WORD - 1);
        return false;
      }
      ok := Extend(allocStart + size);
    }

    /** Records a block at an address that is not below `next`. */
    method Place(allocStart: nat, size: nat, ghost k: nat)
      requires Valid() && heapEnd != 0 && size > 0 && next <= allocStart && allocStart + size <= heapEnd
      modifies this`allocations, this`lastAlloc, this`next, this`live
      ensures Valid() && next == allocStart + size && lastAlloc == allocStart
      ensures allocStart !in old(live) && live == old(live)[allocStart := Block(size, k)]
    {
      assert allocStart !in live by { assert allocStart in live ==> BlockOk(allocStart); }
      allocations := allocations + 1;
      lastAlloc := allocStart;
      next := allocStart + size;
      live := live[allocStart := Block(size, k)];
    }

    /** Makes the heap reach to `allocEnd`, by as many pages as are missing. */
    method Extend(allocEnd: nat) returns (ok: bool)
      requires Valid() && heapEnd != 0
      modifies this`heapEnd, this`pages
      ensures Valid() && heapEnd != 0
      ensures ok ==> allocEnd <= heapEnd && JustEnough(old(pages), allocEnd)
      ensures !ok ==> heapEnd == old(heapEnd) && pages == old(pages) && maxPages * PAGE_SIZE < allocEnd
    {
      ok := true;
      if allocEnd > heapEnd {
        var space := allocEnd - heapEnd;
        PagesCover(space);
        var request := PagesToRequest(space);
        ok := MemoryGrow(request);
        if ok {
          heapEnd := heapEnd + request * PAGE_SIZE;
        }
      }
    }

    /** Frees a live block; `next` goes back to the start of the heap or of the last block only
        when no live block is above it. */
    method Dealloc(p: nat)
      requires Valid() && p in live
      modifies this
      ensures Valid()
      ensures live == old(live) - {p}
      ensures live == map[] ==> next == heapStart
      ensures live != map[] ==> next == (if p == old(lastAlloc) then p else old(next)) && lastAlloc == old(lastAlloc)
      ensures heapEnd == old(heapEnd) && pages == old(pages)
      ensures old(AllAligned()) ==> AllAligned()
    {
      OneFewer(live, p);
      allocations := allocations - 1;
      live := live - {p};
      if allocations == 0 {
        assert live == map[];
        next := heapStart;
        lastAlloc := heapStart;
      } else if lastAlloc == p {
        next := lastAlloc;
      }
    }
  }
}
