/**
 Stack addresses in 64-bit arithmetic. A stack is one mapping: a header page, a guard page,
 the stack and sixteen bytes to align its top with; DeallocateStack finds the mapping again
 from the top and the size alone. `AddressSpace` is the process's mappings, by base address.
 */
module StackLayout {
  import opened Options

  const PAGE_SIZE := 4096
  const DEFAULT_STACK_SIZE := 8192
  const TWO_TO_THE_64 := 0x1_0000_0000_0000_0000

  function Wrap64(v: int): nat {
    v % 0x1_0000_0000_0000_0000
  }

  // v & ~0xF and v & ~(PAGE_SIZE - 1)
  function AlignDown16(v: nat): nat { v - v % 16 }
  function AlignDownPage(v: nat): nat { v - v % 4096 }

  function TotalSize(size: nat): nat {
    Wrap64(PAGE_SIZE + PAGE_SIZE + size + 16)
  }

  function StackTop(base: nat, size: nat): nat {
    AlignDown16(Wrap64(base + TotalSize(size)))
  }

  // munmap takes the pages that the length reaches into.
  function Pages(length: nat): nat { (length + 4095) / 4096 }

  // Where DeallocateStack looks for the header.
  function HeaderPage(top: nat, size: nat): nat {
    Wrap64(AlignDownPage(Wrap64(top - size - PAGE_SIZE)) - PAGE_SIZE)
  }

  // What mmap returns: page-aligned, and below the top of the address space with all its pages.
  predicate Mapping(base: nat, total: nat) {
    base > 0 && base % 4096 == 0 && base + total + 8192 < 0x1_0000_0000_0000_0000
  }

  // ---- The top, as a distance from the base ----

  lemma WrapShift(a: int, b: int)
    ensures Wrap64(Wrap64(a) + b) == Wrap64(a + b)
  {
  }

  lemma AlignedTop(v: nat)
    ensures AlignDown16(Wrap64(v)) == Wrap64(AlignDown16(v))
  {
    var k := v / 0x1_0000_0000_0000_0000;
    assert v == Wrap64(v) + k * 0x1_0000_0000_0000_0000;
    AddSixteens(Wrap64(v), k * 0x1000_0000_0000_0000);
    assert AlignDown16(v) == AlignDown16(Wrap64(v)) + k * 0x1_0000_0000_0000_0000;
  }

  lemma TopOffset(base: nat, size: nat)
    requires base % 4096 == 0
    ensures StackTop(base, size) == Wrap64(base + 8192 + size + 16 - size % 16)
  {
    var v := base + 8192 + size + 16;
    assert Wrap64(base + TotalSize(size)) == Wrap64(v) by {
      WrapShift(8192 + size + 16, base);
    }
    assert AlignDown16(v) == v - size % 16 by {
      SameLowBits(base, size);
    }
    AlignedTop(v);
  }

  lemma SameLowBits(base: nat, size: nat)
    requires base % 4096 == 0
    ensures (base + 8192 + size + 16) % 16 == size % 16
  {
    var pages := base / 4096;
    assert base == 4096 * pages;
    AddSixteens(size, 256 * pages + 513);
  }

  lemma AddSixteens(a: nat, k: nat)
    ensures (a + 16 * k) % 16 == a % 16
  {
  }

  lemma TopNotNull(base: nat, total: nat)
    requires Mapping(base, total)
    ensures AlignDown16(Wrap64(base + total)) != 0
  {
    assert Wrap64(base + total) == base + total;
    assert base >= 4096;
  }

  lemma HeaderOffset(base: nat, d: int)
    requires base % 4096 == 0 && base + 8192 < 0x1_0000_0000_0000_0000 && base > 0
    requires -0x1_0000_0000_0000_0000 < d < 0x1_0000_0000_0000_0000
    ensures Wrap64(AlignDownPage(Wrap64(base + 4096 + d)) - 4096) == base <==>
      0 <= d < 4096 || d < 4096 - 0x1_0000_0000_0000_0000
  {
    var v := Wrap64(base + 4096 + d);
    assert AlignDownPage(v) == base + 4096 <==> base + 4096 <= v < base + 8192;
  }

  lemma PageFrom(base: nat, k: nat, freed: nat, d: int)
    requires d == k - freed
    ensures HeaderPage(Wrap64(base + 8192 + k), freed) == Wrap64(AlignDownPage(Wrap64(base + 4096 + d)) - 4096)
  {
    WrapShift(base + 8192 + k, 0 - freed - 4096);
  }

  // The header page for a top that is k bytes above the end of the guard page.
  lemma HeaderFrom(base: nat, k: nat, freed: nat)
    requires base % 4096 == 0 && base + 8192 < 0x1_0000_0000_0000_0000 && base > 0
    requires k <= 0x1_0000_0000_0000_0000 + 16 && freed < 0x1_0000_0000_0000_0000 && k - freed < 0x1_0000_0000_0000_0000
    ensures HeaderPage(Wrap64(base + 8192 + k), freed) == base <==>
      0 <= k - freed < 4096 || k - freed < 4096 - 0x1_0000_0000_0000_0000
  {
    PageFrom(base, k, freed, k - freed);
    HeaderOffset(base, k - freed);
  }

  /** Deallocating with some size finds the mapping of a stack of another size exactly when the
      sizes differ by little: the difference, with what alignment left, stays within the page. */
  lemma FindsBaseIff(base: nat, size: nat, freed: nat)
    requires Mapping(base, 0) && size < 0x1_0000_0000_0000_0000 - 8208 && freed < 0x1_0000_0000_0000_0000 - 8208
    ensures HeaderPage(StackTop(base, size), freed) == base <==>
      0 <= size + 16 - size % 16 - freed < 4096
  {
    TopOffset(base, size);
    HeaderFrom(base, size + 16 - size % 16, freed);
  }

  /** A worker's pool hands out a stack of the default size for any smaller request, and the
      task keeps the size that was requested: deallocating with it finds the mapping exactly
      when more than 4112 bytes were requested. */
  lemma PooledStackFoundIff(base: nat, requested: nat)
    requires Mapping(base, 0) && requested <= DEFAULT_STACK_SIZE
    ensures HeaderPage(StackTop(base, DEFAULT_STACK_SIZE), requested) == base <==> requested > 4112
  {
    var size := DEFAULT_STACK_SIZE;
    assert size % 16 == 0;
    FindsBaseIff(base, size, requested);
  }

  /** Found is not yet gone: the header's size differs from the requested one, so that only the
      pages of a stack of the requested size are unmapped. The whole mapping goes exactly above
      8176 bytes; from 4113 bytes on, its last page stays. */
  lemma PooledStackGoesIff(base: nat, requested: nat)
    requires Mapping(base, 0) && requested <= DEFAULT_STACK_SIZE
    ensures var found := HeaderPage(StackTop(base, DEFAULT_STACK_SIZE), requested) == base;
      var whole, taken := Pages(TotalSize(DEFAULT_STACK_SIZE)), Pages(TotalSize(requested));
      && (found && taken == whole <==> requested > 8176)
      && (found && taken < whole ==> taken == whole - 1)
  {
    PooledStackFoundIff(base, requested);
    TotalOf(requested);
    TotalOf(8192);
  }

  /** For every size and every page-aligned base the mapping is found again. */
  lemma FindsBase(base: nat, size: nat)
    requires Mapping(base, 0) && size < TWO_TO_THE_64
    ensures HeaderPage(StackTop(base, size), size) == base
  {
    TopOffset(base, size);
    HeaderFrom(base, size + 16 - size % 16, size);
  }

  lemma TotalOf(size: nat)
    requires size < 0x1_0000_0000_0000_0000
    ensures TotalSize(size) == if size + 8208 < 0x1_0000_0000_0000_0000 then size + 8208 else size + 8208 - 0x1_0000_0000_0000_0000
  {
  }

  lemma AlignedBelow(v: nat)
    requires v < 0x1_0000_0000_0000_0000
    ensures Wrap64(v) == v && AlignDown16(v) % 16 == 0 && AlignDown16(v) <= v < AlignDown16(v) + 16
  {
  }

  /** The top is aligned, and within the mapping; at least `size` bytes lie between the guard
      page's end and the top exactly when the total does not overflow. */
  lemma UsableIffNoOverflow(base: nat, size: nat)
    requires size < TWO_TO_THE_64 && Mapping(base, TotalSize(size))
    ensures StackTop(base, size) % 16 == 0
    ensures StackTop(base, size) <= base + TotalSize(size) < StackTop(base, size) + 16
    ensures StackTop(base, size) - (base + 2 * PAGE_SIZE) >= size <==> size + 8208 < 0x1_0000_0000_0000_0000
  {
    TotalOf(size);
    AlignedBelow(base + TotalSize(size));
  }

  lemma PooledPages(requested: nat)
    requires requested < TWO_TO_THE_64
    ensures Pages(TotalSize(DEFAULT_STACK_SIZE)) == 5
    ensures 4112 < requested <= 8176 ==> Pages(TotalSize(requested)) == 4
    ensures 8176 < requested <= DEFAULT_STACK_SIZE ==> Pages(TotalSize(requested)) == 5
  {
    TotalOf(requested);
    TotalOf(8192);
  }

  // ---- The address space ----

  datatype Header = Header(basePtr: nat, totalSize: nat, requestedSize: nat)

  class AddressSpace {
    var mapped: map<nat, nat>       // base to length
    var headers: map<nat, Header>   // what is stored at each header page
    var guards: set<nat>            // pages that must not be touched
    var leftover: map<nat, nat>     // pages that no header tells of, as runs of pages

    // Every mapping is a stack's, with its header at its base and its guard on the next page.
    ghost predicate Valid()
      reads this
    {
      && mapped.Keys == headers.Keys
      && forall base | base in mapped ::
        && Mapping(base, mapped[base]) && base + PAGE_SIZE in guards
        && headers[base].requestedSize < TWO_TO_THE_64
        && headers[base] == Header(base, TotalSize(headers[base].requestedSize), headers[base].requestedSize)
        && mapped[base] == headers[base].totalSize
    }

    constructor ()
      ensures Valid() && mapped == map[] && leftover == map[]
    {
      mapped, headers, guards, leftover := map[], map[], {}, map[];
    }

    /** Null when mmap fails; otherwise the aligned top of a new mapping. */
    method AllocateStack(size: nat, mmap: Option<nat>) returns (top: nat)
      requires Valid() && size < TWO_TO_THE_64
      requires mmap.Some? ==> Mapping(mmap.value, TotalSize(size)) && mmap.value !in mapped
      modifies `mapped, `headers, `guards
      ensures Valid()
      ensures mmap.None? ==> top == 0 && mapped == old(mapped) && headers == old(headers)
      ensures mmap.Some? ==>
        && top == StackTop(mmap.value, size) && top != 0
        && mapped == old(mapped)[mmap.value := TotalSize(size)]
        && headers == old(headers)[mmap.value := Header(mmap.value, TotalSize(size), size)]
        && mmap.value + PAGE_SIZE in guards
    {
      var total := TotalSize(size);
      if mmap.None? {
        return 0;
      }
      var ptr := mmap.value;
      mapped := mapped[ptr := total];
      headers := headers[ptr := Header(ptr, total, size)];
      guards := guards + {ptr + PAGE_SIZE};
      TopNotNull(ptr, total);
      top := AlignDown16(Wrap64(ptr + total));
    }

    // munmap from the base of a mapping on: of all of it, or of its first pages.
    method Unmap(base: nat, length: nat)
      requires Valid()
      modifies `mapped, `headers, `leftover
      ensures Valid()
      ensures if base in old(mapped)
        then mapped == old(mapped) - {base} && headers == old(headers) - {base}
        else mapped == old(mapped) && headers == old(headers)
      ensures leftover == if base in old(mapped) && Pages(length) < Pages(old(mapped)[base])
        then old(leftover)[base + 4096 * Pages(length) := Pages(old(mapped)[base]) - Pages(length)]
        else old(leftover)
    {
      if base in mapped {
        if Pages(length) < Pages(mapped[base]) {
          leftover := leftover[base + 4096 * Pages(length) := Pages(mapped[base]) - Pages(length)];
        }
        mapped := mapped - {base};
        headers := headers - {base};
      }
    }

    // The page with the header of a live stack that is deallocated with its own size, or of a
    // default stack that is deallocated with a smaller one.
    lemma PageIsFound(top: nat, size: nat, base: nat)
      requires Valid() && top < TWO_TO_THE_64 && size < TWO_TO_THE_64 && base in mapped && base in headers
      requires top == StackTop(base, headers[base].requestedSize)
      requires headers[base].requestedSize == size
        || (headers[base].requestedSize == DEFAULT_STACK_SIZE && 4112 < size <= DEFAULT_STACK_SIZE)
      ensures HeaderPage(top, size) == base
    {
      if headers[base].requestedSize == size {
        FindsBase(base, size);
      } else {
        PooledStackFoundIff(base, size);
      }
    }

    // Unmapping by the header at a page, or by the size if the header is another size's.
    method UnmapAt(page: nat, size: nat)
      requires Valid() && size < TWO_TO_THE_64
      modifies `mapped, `headers, `leftover
      ensures Valid()
      ensures page !in old(mapped) ==> mapped == old(mapped) && headers == old(headers) && leftover == old(leftover)
      ensures page in old(mapped) ==> mapped == old(mapped) - {page} && headers == old(headers) - {page}
      ensures page in old(mapped) && old(headers)[page].requestedSize == size ==> leftover == old(leftover)
      ensures page in old(mapped) && old(headers)[page].requestedSize == DEFAULT_STACK_SIZE && 4112 < size <= DEFAULT_STACK_SIZE ==>
        leftover == if size > 8176 then old(leftover) else old(leftover)[page + 16384 := 1]
    {
      if page in headers {
        var header := headers[page];
        if header.requestedSize == size && header.basePtr == page {
          Unmap(header.basePtr, header.totalSize);
        } else {
          PooledPages(size);
          Unmap(page, TotalSize(size));
        }
      }
    }

    /** A null top is ignored. Given the top and size of a live stack, its mapping goes and no
        other does. Given a default stack's top and the smaller size that was requested, of more
        than 4112 bytes, the mapping goes but for its last page, or all of it above 8176. */
    method DeallocateStack(top: nat, size: nat)
      requires Valid() && top < TWO_TO_THE_64 && size < TWO_TO_THE_64
      modifies `mapped, `headers, `leftover
      ensures Valid()
      ensures top == 0 ==> mapped == old(mapped) && leftover == old(leftover)
      ensures top != 0 ==> forall base | base in old(mapped) && old(headers)[base].requestedSize == size && top == StackTop(base, size) ::
        mapped == old(mapped) - {base} && headers == old(headers) - {base} && leftover == old(leftover)
      ensures top != 0 ==> forall base | base in old(mapped) && old(headers)[base].requestedSize == DEFAULT_STACK_SIZE
          && top == StackTop(base, DEFAULT_STACK_SIZE) && 4112 < size <= DEFAULT_STACK_SIZE ::
        && mapped == old(mapped) - {base} && headers == old(headers) - {base}
        && leftover == if size > 8176 then old(leftover) else old(leftover)[base + 16384 := 1]
    {
      if top == 0 {
        return;
      }
      var guardPageStart := AlignDownPage(Wrap64(top - size - PAGE_SIZE));
      var headerPageStart := Wrap64(guardPageStart - PAGE_SIZE);
      forall base | base in mapped && top == StackTop(base, headers[base].requestedSize)
          && (headers[base].requestedSize == size
              || (headers[base].requestedSize == DEFAULT_STACK_SIZE && 4112 < size <= DEFAULT_STACK_SIZE))
        ensures headerPageStart == base
      {
        PageIsFound(top, size, base);
      }
      UnmapAt(headerPageStart, size);
    }
  }

  /** Allocating a stack of any size and deallocating it leaves the mappings as they were. */
  method AllocateThenDeallocate(space: AddressSpace, size: nat, base: nat)
    requires space.Valid() && size < TWO_TO_THE_64 && Mapping(base, TotalSize(size)) && base !in space.mapped
    modifies space
    ensures space.Valid() && space.mapped == old(space.mapped) && space.headers == old(space.headers)
    ensures space.leftover == old(space.leftover)
  {
    var top := space.AllocateStack(size, Some(base));
    space.DeallocateStack(top, size);
    assert space.mapped == old(space.mapped)[base := TotalSize(size)] - {base};
  }
}
