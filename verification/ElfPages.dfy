/** Pages of a process image: splitting data into pages and merging a dump over the original. */
module ElfPages {
  import opened Bytes

  const PAGE: nat := 0x1000

  function AlignDown(a: nat): (r: nat)
    ensures r % PAGE == 0 && r <= a < r + PAGE
  {
    a - a % PAGE
  }

  datatype Page = Page(addr: nat, data: seq<byte>, prot: int)

  predicate WholePage(p: Page) {
    p.addr % PAGE == 0 && |p.data| == PAGE
  }

  ghost predicate Ascending(pages: seq<Page>) {
    && (forall i | 0 <= i < |pages| :: WholePage(pages[i]))
    && (forall i, j | 0 <= i < j < |pages| :: pages[i].addr < pages[j].addr)
  }

  // ----- split_to_pages and the merging of its results -----

  /** The pages that `length` bytes at base reach; a non-empty prefix alone reaches its page. */
  predicate Touches(p: nat, base: nat, length: nat) {
    p % PAGE == 0 && AlignDown(base) <= p < base + length
  }

  /** The page at p once data is laid at base: zero outside the data. */
  function PageOf(data: seq<byte>, base: nat, p: nat): (r: seq<byte>)
    ensures |r| == PAGE
  {
    seq(PAGE, k requires 0 <= k < PAGE => if base <= p + k < base + |data| then data[p + k - base] else 0)
  }

  function Split(data: seq<byte>, base: nat): map<nat, seq<byte>> {
    map p: nat | AlignDown(base) <= p < base + |data| && Touches(p, base, |data|) :: PageOf(data, base, p)
  }

  method SplitToPages(data: seq<byte>, base: nat) returns (pages: map<nat, seq<byte>>)
    ensures pages == Split(data, base)
  {
    pages := map[];
    var start := AlignDown(base);
    var padded := Zeros(base - start) + data;
    var offset := 0;
    while offset < |padded|
      invariant offset % PAGE == 0
      invariant forall p: nat :: p in pages <==> p < start + offset && Touches(p, base, |data|)
      invariant forall p | p in pages :: pages[p] == PageOf(data, base, p)
    {
      var end := if offset + PAGE <= |padded| then offset + PAGE else |padded|;
      var chunk := padded[offset..end];
      pages := pages[start + offset := chunk + Zeros(PAGE - |chunk|)];
      PageLaid(data, base, offset, chunk);
      NextTouched(data, base, offset);
      offset := offset + PAGE;
    }
  }

  lemma {:induction false} PageLaid(data: seq<byte>, base: nat, offset: nat, chunk: seq<byte>)
    requires var padded := Zeros(base - AlignDown(base)) + data;
             && offset < |padded|
             && chunk == padded[offset..if offset + PAGE <= |padded| then offset + PAGE else |padded|]
    ensures chunk + Zeros(PAGE - |chunk|) == PageOf(data, base, AlignDown(base) + offset)
  {
    var start := AlignDown(base);
    hide AlignDown;
    var laid, page := chunk + Zeros(PAGE - |chunk|), PageOf(data, base, start + offset);
    assert |laid| == |page|;
    forall k | 0 <= k < PAGE ensures laid[k] == page[k] {
      if k < |chunk| {
        assert chunk[k] == (Zeros(base - start) + data)[offset + k];
      }
    }
  }

  /** The touched pages below the next offset are those below this one and this one. */
  lemma {:induction false} NextTouched(data: seq<byte>, base: nat, offset: nat)
    requires offset % PAGE == 0 && AlignDown(base) + offset < base + |data|
    ensures (offset + PAGE) % PAGE == 0
    ensures forall p: nat :: p < AlignDown(base) + offset + PAGE && Touches(p, base, |data|)
                             <==> (p < AlignDown(base) + offset && Touches(p, base, |data|)) || p == AlignDown(base) + offset
  {
    forall p: nat | p % PAGE == 0 && p >= AlignDown(base) + offset && p < AlignDown(base) + offset + PAGE
      ensures p == AlignDown(base) + offset
    {
      OnePage(p, AlignDown(base) + offset);
    }
  }

  lemma {:induction false} OnePage(p: nat, q: nat)
    requires p % PAGE == 0 && q % PAGE == 0 && q <= p < q + PAGE
    ensures p == q
  {
  }

  datatype Region = Region(data: seq<byte>, base: nat)

  function Merged(regions: seq<Region>): map<nat, seq<byte>> {
    if regions == [] then map[]
    else Merged(regions[..|regions| - 1]) + Split(regions[|regions| - 1].data, regions[|regions| - 1].base)
  }

  method MergeRegions(regions: seq<Region>) returns (pages: map<nat, seq<byte>>)
    ensures pages == Merged(regions)
  {
    pages := map[];
    for n := 0 to |regions|
      invariant pages == Merged(regions[..n])
    {
      var split := SplitToPages(regions[n].data, regions[n].base);
      pages := pages + split;
      assert regions[..n + 1][..n] == regions[..n];
    }
    assert regions[..|regions|] == regions;
  }

  ghost predicate LastToucher(regions: seq<Region>, i: nat, p: nat)
    requires i < |regions|
  {
    && Touches(p, regions[i].base, |regions[i].data|)
    && forall j | i < j < |regions| :: !Touches(p, regions[j].base, |regions[j].data|)
  }

  /** A page is decided by the last region laid over it, and by that region alone. */
  lemma {:induction false} LastToucherDecides(regions: seq<Region>, i: nat, p: nat)
    requires i < |regions| && LastToucher(regions, i, p)
    ensures p in Merged(regions) && Merged(regions)[p] == PageOf(regions[i].data, regions[i].base, p)
  {
    var n := |regions| - 1;
    if i < n {
      assert !Touches(p, regions[n].base, |regions[n].data|);
      forall j | i < j < n ensures !Touches(p, regions[..n][j].base, |regions[..n][j].data|) {
        assert regions[..n][j] == regions[j];
      }
      LastToucherDecides(regions[..n], i, p);
    }
  }

  /** Every byte of every region is found in the merged pages at its own address. */
  ghost predicate Survive(regions: seq<Region>) {
    forall i, k | 0 <= i < |regions| && 0 <= k < |regions[i].data| :: ByteSurvives(regions, i, k)
  }

  ghost predicate ByteSurvives(regions: seq<Region>, i: nat, k: nat)
    requires i < |regions| && k < |regions[i].data|
  {
    var a := regions[i].base + k;
    AlignDown(a) in Merged(regions) && |Merged(regions)[AlignDown(a)]| == PAGE
    && Merged(regions)[AlignDown(a)][a % PAGE] == regions[i].data[k]
  }

  ghost predicate NoSharedPage(regions: seq<Region>) {
    forall i, j, p | 0 <= i < j < |regions| && Touches(p, regions[i].base, |regions[i].data|) ::
      !Touches(p, regions[j].base, |regions[j].data|)
  }

  ghost predicate SameLayout(a: seq<Region>, b: seq<Region>) {
    |a| == |b| && forall i | 0 <= i < |a| :: a[i].base == b[i].base && |a[i].data| == |b[i].data|
  }

  lemma {:induction false} SurviveWithoutSharing(regions: seq<Region>)
    requires NoSharedPage(regions)
    ensures Survive(regions)
  {
    forall i, k | 0 <= i < |regions| && 0 <= k < |regions[i].data|
      ensures ByteSurvives(regions, i, k)
    {
      var p := AlignDown(regions[i].base + k);
      LastToucherDecides(regions, i, p);
    }
  }

  /** The same layout, holding ones in region `ones` and zeros everywhere else. */
  function Fill(regions: seq<Region>, ones: nat): (r: seq<Region>)
    ensures SameLayout(regions, r)
    ensures forall i, k | 0 <= i < |r| && 0 <= k < |r[i].data| :: r[i].data[k] == if i == ones then 1 else 0
  {
    seq(|regions|, i requires 0 <= i < |regions| =>
      Region(seq(|regions[i].data|, _ => if i == ones then 1 as byte else 0 as byte), regions[i].base))
  }

  /** When two regions share a page, some contents of that layout lose a byte. */
  lemma {:induction false} SharingLosesBytes(regions: seq<Region>, i: nat, j: nat, p: nat)
    requires i < j < |regions| && regions[i].data != []
    requires Touches(p, regions[i].base, |regions[i].data|) && Touches(p, regions[j].base, |regions[j].data|)
    ensures !Survive(Fill(regions, i))
  {
    var filled := Fill(regions, i);
    assert filled[i].base == regions[i].base && filled[j].base == regions[j].base;
    assert |filled[i].data| == |regions[i].data| && |filled[j].data| == |regions[j].data|;
    OverwrittenByte(filled, i, j, p);
  }

  lemma {:induction false} OverwrittenByte(regions: seq<Region>, i: nat, j: nat, p: nat)
    requires i < j < |regions| && regions[i].data != []
    requires Touches(p, regions[i].base, |regions[i].data|) && Touches(p, regions[j].base, |regions[j].data|)
    requires forall k | 0 <= k < |regions[i].data| :: regions[i].data[k] == 1
    requires forall n, k | i < n < |regions| && 0 <= k < |regions[n].data| :: regions[n].data[k] == 0
    ensures !Survive(regions)
  {
    var last := LastToucherFrom(regions, j, p);
    LastToucherDecides(regions, last, p);
    var a := if regions[i].base <= p then p else regions[i].base;
    SamePage(a, p);
    ZeroPage(regions[last].data, regions[last].base, p, a - p);
    LostByte(regions, i, a - regions[i].base);
  }

  lemma {:induction false} ZeroPage(data: seq<byte>, base: nat, p: nat, k: nat)
    requires k < PAGE && forall n | 0 <= n < |data| :: data[n] == 0
    ensures PageOf(data, base, p)[k] == 0
  {
  }

  lemma {:induction false} LostByte(regions: seq<Region>, i: nat, k: nat)
    requires i < |regions| && k < |regions[i].data| && !ByteSurvives(regions, i, k)
    ensures !Survive(regions)
  {
  }

  lemma {:induction false} SamePage(a: nat, p: nat)
    requires p % PAGE == 0 && p <= a < p + PAGE
    ensures AlignDown(a) == p && a % PAGE == a - p
  {
  }

  lemma {:induction false} LastToucherFrom(regions: seq<Region>, j: nat, p: nat) returns (last: nat)
    requires j < |regions| && Touches(p, regions[j].base, |regions[j].data|)
    ensures j <= last < |regions| && LastToucher(regions, last, p)
  {
    last := |regions| - 1;
    while !Touches(p, regions[last].base, |regions[last].data|)
      invariant j <= last < |regions|
      invariant forall n | last < n < |regions| :: !Touches(p, regions[n].base, |regions[n].data|)
      decreases last
    {
      last := last - 1;
    }
  }

  /** The exact condition: a layout keeps every byte, whatever the contents, iff no page is shared. */
  lemma {:induction false} SurvivalCondition(layout: seq<Region>)
    requires forall i | 0 <= i < |layout| :: layout[i].data != []
    ensures NoSharedPage(layout) <==> forall regions | SameLayout(regions, layout) :: Survive(regions)
  {
    if NoSharedPage(layout) {
      forall regions | SameLayout(regions, layout) ensures Survive(regions) {
        SurviveWithoutSharing(regions);
      }
    } else {
      var i, j, p :| 0 <= i < j < |layout| && Touches(p, layout[i].base, |layout[i].data|)
                     && Touches(p, layout[j].base, |layout[j].data|);
      SharingLosesBytes(layout, i, j, p);
      assert SameLayout(Fill(layout, i), layout);
    }
  }

  // ----- NOBITS sections -----

  /** How far past the aligned start the page-by-page walk over `size` bytes gets. */
  function NobitsSpan(size: nat): nat {
    (size + PAGE - 1) / PAGE * PAGE
  }

  /** The pages a NOBITS section of `size` bytes at vaddr is given, stepping one page at a time. */
  method NobitsPages(vaddr: nat, size: nat) returns (pages: set<nat>)
    ensures forall p: nat :: p in pages <==> p % PAGE == 0 && AlignDown(vaddr) <= p < AlignDown(vaddr) + NobitsSpan(size)
  {
    pages := {};
    var offset := 0;
    while offset < size
      invariant offset % PAGE == 0 && offset < size + PAGE
      invariant forall p: nat :: p in pages <==> p % PAGE == 0 && AlignDown(vaddr) <= p < AlignDown(vaddr) + offset
    {
      AlignStep(vaddr, offset);
      pages := pages + {AlignDown(vaddr + offset)};
      offset := offset + PAGE;
    }
  }

  lemma {:induction false} AlignStep(vaddr: nat, offset: nat)
    requires offset % PAGE == 0
    ensures AlignDown(vaddr + offset) == AlignDown(vaddr) + offset
    ensures forall p: nat | p % PAGE == 0 ::
              AlignDown(vaddr) + offset <= p < AlignDown(vaddr) + offset + PAGE <==> p == AlignDown(vaddr + offset)
  {
  }

  /** Every page of the section is covered exactly when start and length do not spill into one more page. */
  lemma {:induction false} NobitsCoverage(vaddr: nat, size: nat)
    requires size > 0
    ensures (forall p: nat | Touches(p, vaddr, size) :: p < AlignDown(vaddr) + NobitsSpan(size))
            <==> vaddr % PAGE + (size - 1) % PAGE < PAGE
  {
    var last := AlignDown(vaddr + size - 1);
    assert Touches(last, vaddr, size);
  }
}
