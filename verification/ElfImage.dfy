/** The written file loads as the pages it was built from. */
module ElfImage {
  import opened Bytes
  import opened Wrappers
  import opened ElfPages
  import opened ElfClassify
  import opened ElfFormat
  import opened ElfBuilder

  ghost predicate Buildable(f: Elf) {
    f.HeadersPack() && f.EhdrPacks()
  }

  // ----- reading the headers back -----

  lemma {:induction false} EhdrPieces(osabi: byte, eType: nat, entry: nat, count: nat, file: seq<byte>)
    requires |file| >= EHDR_SIZE && file[..EHDR_SIZE] == PackEhdr(osabi, eType, entry, count)
    ensures file[..4] == MAGIC && file[4] == 1 && file[5] == 1
    ensures file[16..16 + 2 * 2] == Table(2, [eType, 3])
    ensures file[20..20 + 4 * 5] == Table(4, [1, entry, EHDR_SIZE, 0, 0])
    ensures file[40..40 + 2 * 6] == Table(2, [EHDR_SIZE, PHDR_SIZE, count, 40, 0, 0])
  {
    var ident := MAGIC + [1, 1, 1, osabi, 0] + Zeros(7);
    var t1, t2, t3 := Table(2, [eType, 3]), Table(4, [1, entry, EHDR_SIZE, 0, 0]),
                      Table(2, [EHDR_SIZE, PHDR_SIZE, count, 40, 0, 0]);
    var h := file[..EHDR_SIZE];
    assert h == ident + t1 + t2 + t3;
    assert |ident| == 16 && |t1| == 4 && |t2| == 20 && |t3| == 12;
    assert file[..4] == h[..4] == ident[..4] == MAGIC;
    assert file[4] == h[4] == ident[4] && file[5] == h[5] == ident[5];
    assert file[16..20] == h[16..20] == t1;
    assert file[20..40] == h[20..40] == t2;
    assert file[40..52] == h[40..52] == t3;
  }

  /** The file header says: 32-bit, little-endian, i386, and where the program headers are. */
  ghost predicate EhdrReads(file: seq<byte>, eType: nat, entry: nat, count: nat) {
    && |file| >= EHDR_SIZE && file[..4] == MAGIC && file[4] == 1 && file[5] == 1
    && Field(file, 16, 2) == eType && Field(file, 18, 2) == 3
    && Field(file, 24, 4) == entry && Field(file, 28, 4) == EHDR_SIZE
    && Field(file, 42, 2) == PHDR_SIZE && Field(file, 44, 2) == count
  }

  lemma {:induction false} EhdrFields(osabi: byte, eType: nat, entry: nat, count: nat, file: seq<byte>)
    requires |file| >= EHDR_SIZE && file[..EHDR_SIZE] == PackEhdr(osabi, eType, entry, count)
    requires Fits(2, eType) && Fits(4, entry) && Fits(2, count)
    ensures EhdrReads(file, eType, entry, count)
  {
    EhdrPieces(osabi, eType, entry, count, file);
    assert Fits(2, 3) && Fits(4, EHDR_SIZE) && Fits(2, PHDR_SIZE);
    ReadTable(file, 16, 2, [eType, 3], 0, 16);
    ReadTable(file, 16, 2, [eType, 3], 1, 18);
    ReadTable(file, 20, 4, [1, entry, EHDR_SIZE, 0, 0], 1, 24);
    ReadTable(file, 20, 4, [1, entry, EHDR_SIZE, 0, 0], 2, 28);
    ReadTable(file, 40, 2, [EHDR_SIZE, PHDR_SIZE, count, 40, 0, 0], 1, 42);
    ReadTable(file, 40, 2, [EHDR_SIZE, PHDR_SIZE, count, 40, 0, 0], 2, 44);
  }

  lemma {:induction false} WordsAt(headers: seq<Phdr>, i: nat)
    requires i < |headers|
    ensures AllWords(headers)[8 * i..8 * i + 8] == Words(headers[i])
  {
    var n := |headers| - 1;
    var init := AllWords(headers[..n]);
    if i < n {
      WordsAt(headers[..n], i);
      assert AllWords(headers)[8 * i..8 * i + 8] == init[8 * i..8 * i + 8];
    }
  }

  lemma {:induction false} ReadPackedHeader(file: seq<byte>, at: nat, headers: seq<Phdr>, i: nat)
    requires at + PHDR_SIZE * |headers| <= |file|
    requires file[at..at + PHDR_SIZE * |headers|] == PackTable(headers)
    requires i < |headers| && Packable(headers[i])
    ensures ReadHeader(file, at + PHDR_SIZE * i) == headers[i]
  {
    PackTableIsTable(headers);
    WordsAt(headers, i);
    HeaderFromWords(file, at, AllWords(headers), 8 * i, headers[i]);
  }

  lemma {:induction false} HeaderFromWords(file: seq<byte>, at: nat, words: seq<nat>, first: nat, h: Phdr)
    requires at + 4 * |words| <= |file| && first + 8 <= |words|
    requires file[at..at + 4 * |words|] == Table(4, words)
    requires words[first..first + 8] == Words(h)
    requires Packable(h)
    ensures ReadHeader(file, at + 4 * first) == h
  {
    var w := words[first..first + 8];
    var lo := at + 4 * first;
    assert w[0] == h.kind && w[1] == h.offset && w[2] == h.vaddr && w[3] == h.paddr
        && w[4] == h.filesz && w[5] == h.memsz && w[6] == h.flags && w[7] == h.align;
    HeaderWord(file, at, words, first, lo, h.kind);
    HeaderWord(file, at, words, first + 1, lo + 4, h.offset);
    HeaderWord(file, at, words, first + 2, lo + 8, h.vaddr);
    HeaderWord(file, at, words, first + 3, lo + 12, h.paddr);
    HeaderWord(file, at, words, first + 4, lo + 16, h.filesz);
    HeaderWord(file, at, words, first + 5, lo + 20, h.memsz);
    HeaderWord(file, at, words, first + 6, lo + 24, h.flags);
    HeaderWord(file, at, words, first + 7, lo + 28, h.align);
  }

  lemma {:induction false} HeaderWord(file: seq<byte>, at: nat, words: seq<nat>, k: nat, lo: nat, value: nat)
    requires at + 4 * |words| <= |file| && k < |words|
    requires file[at..at + 4 * |words|] == Table(4, words)
    requires words[k] == value && Fits(4, value) && lo == at + 4 * k
    ensures lo + 4 <= |file| && Field(file, lo, 4) == value
  {
    FieldOfTable(file, at, 4, words, k, lo);
  }

  lemma {:induction false} FieldOfTable(file: seq<byte>, at: nat, width: nat, values: seq<nat>, k: nat, lo: nat)
    requires at + width * |values| <= |file|
    requires file[at..at + width * |values|] == Table(width, values)
    requires k < |values| && Fits(width, values[k]) && lo == at + width * k
    ensures lo + width <= |file|
    ensures Field(file, lo, width) == values[k]
  {
    ReadTable(file, at, width, values, k, lo);
  }

  /** Where the parts of a joined file lie. */
  lemma {:induction false} JoinSlices(ehdr: seq<byte>, phdrs: seq<byte>, gap: nat, interp: seq<byte>, body: seq<byte>,
                   f: seq<byte>, b: nat, c: nat, d: nat)
    requires f == Join(ehdr, phdrs, gap, interp, body)
    requires b == |ehdr| + |phdrs| && c == b + gap && d == c + |interp|
    ensures |f| == d + |body|
    ensures f[..|ehdr|] == ehdr && f[|ehdr|..b] == phdrs && f[c..d] == interp && f[d..] == body
  {
  }

  lemma {:induction false} ImageLayout(f: Elf)
    requires f.EhdrPacks()
    ensures |f.Image()| == f.BodyOffset() + |Body(f.segs)|
    ensures EHDR_SIZE + PHDR_SIZE * f.HeaderCount() <= f.DataOffset()
    ensures f.Image()[..EHDR_SIZE] == f.Ehdr()
    ensures f.Image()[EHDR_SIZE..EHDR_SIZE + PHDR_SIZE * f.HeaderCount()] == PackTable(f.Headers())
    ensures f.Image()[f.DataOffset()..f.BodyOffset()] == Padded(f.InterpData())
    ensures f.Image()[f.BodyOffset()..] == Body(f.segs)
  {
    hide Body, Padded, PackTable, Elf.Headers, Join, PackEhdr;
    var end := EHDR_SIZE + PHDR_SIZE * f.HeaderCount();
    JoinSlices(f.Ehdr(), PackTable(f.Headers()), f.DataOffset() - end, Padded(f.InterpData()), Body(f.segs),
               f.Image(), end, f.DataOffset(), f.BodyOffset());
  }

  lemma {:induction false} ReadHeadersFrom(file: seq<byte>, headers: seq<Phdr>, eType: nat, entry: nat)
    requires EhdrReads(file, eType, entry, |headers|)
    requires EHDR_SIZE + PHDR_SIZE * |headers| <= |file|
    requires ReadEntries(file, EHDR_SIZE, |headers|) == headers
    ensures ReadHeaders(file) == Some(headers) && LoadEntry(file) == entry
  {
  }

  lemma {:induction false} EntriesReadBack(file: seq<byte>, at: nat, headers: seq<Phdr>, n: nat)
    requires at + PHDR_SIZE * |headers| <= |file| && n <= |headers|
    requires file[at..at + PHDR_SIZE * |headers|] == PackTable(headers)
    requires AllPackable(headers)
    ensures ReadEntries(file, at, n) == headers[..n]
  {
    hide PackTable, ReadHeader;
    if n > 0 {
      EntriesReadBack(file, at, headers, n - 1);
      ReadPackedHeader(file, at, headers, n - 1);
      assert headers[..n] == headers[..n - 1] + [headers[n - 1]];
    }
  }

  lemma {:induction false} ImageEhdr(f: Elf)
    requires f.EhdrPacks()
    ensures EhdrReads(f.Image(), f.eType, f.oep % 0x1_0000_0000, f.HeaderCount())
  {
    ImageLayout(f);
    assert Fits(4, f.oep % 0x1_0000_0000);
    EhdrFields(f.osabi, f.eType, f.oep % 0x1_0000_0000, f.HeaderCount(), f.Image());
  }

  lemma {:induction false} ImageEntries(f: Elf)
    requires Buildable(f)
    ensures EHDR_SIZE + PHDR_SIZE * f.HeaderCount() <= |f.Image()|
    ensures ReadEntries(f.Image(), EHDR_SIZE, f.HeaderCount()) == f.Headers()
  {
    ImageLayout(f);
    EntriesReadBack(f.Image(), EHDR_SIZE, f.Headers(), f.HeaderCount());
    assert f.Headers()[..f.HeaderCount()] == f.Headers();
  }

  /** An ABI reader finds in the file exactly the program headers the builder meant. */
  lemma {:induction false} HeadersReadBack(f: Elf)
    requires Buildable(f)
    ensures ReadHeaders(f.Image()) == Some(f.Headers())
    ensures LoadEntry(f.Image()) == f.oep % 0x1_0000_0000
  {
    ImageEhdr(f);
    ImageEntries(f);
    ReadHeadersFrom(f.Image(), f.Headers(), f.eType, f.oep % 0x1_0000_0000);
  }

  // ----- loading -----

  function PageCell(p: Page, j: nat): Cell
    requires j < |p.data|
  {
    Cell(p.data[j], Bit(p.prot, 0), Bit(p.prot, 1), Bit(p.prot, 2))
  }

  ghost predicate HoldsCell(m: map<nat, Cell>, p: Page, j: nat)
    requires j < |p.data|
  {
    p.addr + j in m && m[p.addr + j] == PageCell(p, j)
  }

  /** Memory holds exactly the bytes of these pages, each with its page's rights. */
  ghost predicate Denotes(m: map<nat, Cell>, pages: seq<Page>) {
    && (forall a | a in m :: exists p :: p in pages && p.addr <= a < p.addr + |p.data|)
    && (forall p, j | p in pages && 0 <= j < |p.data| :: HoldsCell(m, p, j))
  }

  predicate Covers(s: Segment, a: int) {
    s.addr <= a < s.addr + |s.data|
  }

  function SegmentCell(s: Segment, a: nat): Cell
    requires Covers(s, a)
  {
    Cell(s.data[a - s.addr], Bit(s.prot, 0), Bit(s.prot, 1), Bit(s.prot, 2))
  }

  function SegmentMap(s: Segment): map<nat, Cell> {
    map a: nat | s.addr <= a < s.addr + |s.data| && Covers(s, a) :: SegmentCell(s, a)
  }

  function SegmentsMap(segs: seq<Segment>): map<nat, Cell> {
    if segs == [] then map[] else SegmentMap(segs[0]) + SegmentsMap(segs[1..])
  }

  ghost predicate Separate(segs: seq<Segment>) {
    forall i, j | 0 <= i < j < |segs| :: segs[i].addr + |segs[i].data| <= segs[j].addr
  }

  lemma {:induction false} FlagsMapProt(prot: int)
    ensures Bit(Flags(prot), 2) == Bit(prot, 0)
    ensures Bit(Flags(prot), 1) == Bit(prot, 1)
    ensures Bit(Flags(prot), 0) == Bit(prot, 2)
  {
  }

  lemma {:induction false} SegmentLoads(file: seq<byte>, s: Segment, offset: nat)
    requires |s.data| % PAGE == 0
    requires offset + |s.data| <= |file| && file[offset..offset + |s.data|] == s.data
    ensures LoadHeader(s, offset).filesz == LoadHeader(s, offset).memsz == |s.data|
    ensures SegmentMemory(file, LoadHeader(s, offset)) == SegmentMap(s)
  {
    FlagsMapProt(s.prot);
    var h := LoadHeader(s, offset);
    forall a: nat | Covers(s, a) ensures CellAt(file, h, a) == SegmentCell(s, a) {
      assert file[offset..offset + |s.data|][a - s.addr] == file[offset + (a - s.addr)];
    }
  }

  lemma {:induction false} SegmentsLoad(file: seq<byte>, segs: seq<Segment>, start: nat)
    requires WholeSegments(segs)
    requires start <= |file| && file[start..] == Body(segs)
    ensures LoadSegments(file, LoadHeaders(segs, start)) == Some(SegmentsMap(segs))
  {
    if segs != [] {
      var s, rest := segs[0], segs[1..];
      assert segs[0].data != [] && |s.data| % PAGE == 0;
      var next := start + |s.data|;
      assert Padded(s.data) == s.data;
      BodySplits(file, start, s.data, Body(rest));
      SegmentsLoad(file, rest, next);
      SegmentLoads(file, s, start);
      LoadFirst(file, LoadHeader(s, start), LoadHeaders(rest, next));
    }
  }

  lemma {:induction false} BodySplits(file: seq<byte>, start: nat, a: seq<byte>, b: seq<byte>)
    requires start <= |file| && file[start..] == a + b
    ensures start + |a| <= |file| && file[start..start + |a|] == a && file[start + |a|..] == b
  {
    assert file[start..][..|a|] == a;
    assert file[start..][|a|..] == b;
  }

  lemma {:induction false} LoadFirst(file: seq<byte>, h: Phdr, rest: seq<Phdr>)
    requires h.kind == PT_LOAD && h.offset + h.filesz <= |file| && h.filesz <= h.memsz
    requires LoadSegments(file, rest).Some?
    ensures LoadSegments(file, [h] + rest) == Some(SegmentMemory(file, h) + LoadSegments(file, rest).value)
  {
    assert ([h] + rest)[1..] == rest;
  }

  lemma {:induction false} SegmentsMapCovers(segs: seq<Segment>)
    requires Separate(segs)
    ensures forall a | a in SegmentsMap(segs) :: exists s :: s in segs && Covers(s, a)
    ensures forall s, a: nat | s in segs && Covers(s, a) :: a in SegmentsMap(segs) && SegmentsMap(segs)[a] == SegmentCell(s, a)
  {
    if segs != [] {
      var rest := segs[1..];
      SegmentsMapCovers(rest);
      forall t, a: int | t in rest && Covers(segs[0], a) ensures !Covers(t, a) {
        var j :| 0 < j < |segs| && segs[j] == t;
      }
      forall s, a: nat | s in segs && Covers(s, a)
        ensures a in SegmentsMap(segs) && SegmentsMap(segs)[a] == SegmentCell(s, a)
      {
        assert s == segs[0] || s in rest;
        if s == segs[0] {
          assert a in SegmentMap(s) && a !in SegmentsMap(rest);
        }
      }
    }
  }

  // ----- from segments back to pages -----

  lemma {:induction false} FlattenMembers(segs: seq<Segment>)
    requires WholeSegments(segs)
    ensures forall p :: p in Flatten(segs) <==> exists s :: s in segs && p in SegmentPages(s)
  {
    if segs != [] {
      var n := |segs| - 1;
      FlattenMembers(segs[..n]);
      assert segs == segs[..n] + [segs[n]];
    }
  }

  lemma {:induction false} PageInSegment(s: Segment, p: Page, j: nat)
    requires |s.data| % PAGE == 0 && p in SegmentPages(s) && j < PAGE
    ensures |p.data| == PAGE && Covers(s, p.addr + j) && SegmentCell(s, p.addr + j) == PageCell(p, j)
  {
    var i :| 0 <= i < |s.data| / PAGE && p == SegmentPages(s)[i];
    assert p.data[j] == s.data[i * PAGE + j];
  }

  lemma {:induction false} AddressInPage(s: Segment, a: nat) returns (p: Page)
    requires |s.data| % PAGE == 0 && Covers(s, a)
    ensures p in SegmentPages(s) && p.addr <= a < p.addr + |p.data|
  {
    var i := (a - s.addr) / PAGE;
    assert i < |s.data| / PAGE;
    p := SegmentPages(s)[i];
  }

  lemma {:induction false} AddressHasPage(segs: seq<Segment>, a: nat)
    requires WholeSegments(segs) && Separate(segs) && a in SegmentsMap(segs)
    ensures exists p :: p in Flatten(segs) && p.addr <= a < p.addr + |p.data|
  {
    SegmentsMapCovers(segs);
    FlattenMembers(segs);
    var s :| s in segs && Covers(s, a);
    var p := AddressInPage(s, a);
  }

  lemma {:induction false} PageHasCells(segs: seq<Segment>, p: Page, j: nat)
    requires WholeSegments(segs) && Separate(segs) && p in Flatten(segs) && j < |p.data|
    ensures HoldsCell(SegmentsMap(segs), p, j)
  {
    SegmentsMapCovers(segs);
    FlattenMembers(segs);
    var s :| s in segs && p in SegmentPages(s);
    PageInSegment(s, p, 0);
    PageInSegment(s, p, j);
  }

  lemma {:induction false} SegmentsDenotePages(segs: seq<Segment>)
    requires WholeSegments(segs) && Separate(segs)
    ensures Denotes(SegmentsMap(segs), Flatten(segs))
  {
    forall a | a in SegmentsMap(segs) ensures exists p :: p in Flatten(segs) && p.addr <= a < p.addr + |p.data| {
      AddressHasPage(segs, a);
    }
    forall p, j | p in Flatten(segs) && 0 <= j < |p.data|
      ensures HoldsCell(SegmentsMap(segs), p, j)
    {
      PageHasCells(segs, p, j);
    }
  }

  /** The segments so far lie apart, on page boundaries, and end where the last page ends. */
  ghost predicate EndsAt(segs: seq<Segment>, end: nat) {
    && Separate(segs)
    && (forall i | 0 <= i < |segs| :: segs[i].addr + |segs[i].data| <= end)
    && (forall i | 0 <= i < |segs| :: segs[i].addr % PAGE == 0)
  }

  lemma {:induction false} CoalesceSeparates(pages: seq<Page>)
    requires Ascending(pages)
    ensures EndsAt(Coalesce(pages), if pages == [] then 0 else pages[|pages| - 1].addr + PAGE)
  {
    if pages != [] {
      var n := |pages| - 1;
      CoalesceSeparates(pages[..n]);
      assert WholePage(pages[n]);
      if n > 0 {
        assert WholePage(pages[n - 1]) && pages[n - 1].addr < pages[n].addr;
        assert pages[n - 1].addr + PAGE <= pages[n].addr;
      }
      AddPageSeparates(Coalesce(pages[..n]), pages[n]);
    }
  }

  lemma {:induction false} AddPageSeparates(segs: seq<Segment>, page: Page)
    requires EndsAt(segs, page.addr) && WholePage(page)
    ensures EndsAt(AddPage(segs, page), page.addr + PAGE)
  {
  }

  // ----- the main results -----

  /** The pages a builder is given: whole pages at distinct addresses, in any order. */
  ghost predicate DistinctPages(pages: seq<Page>) {
    DistinctAddrs(pages) && forall p | p in pages :: WholePage(p)
  }

  lemma {:induction false} SortedPagesAscend(pages: seq<Page>)
    requires DistinctPages(pages)
    ensures Ascending(SortPages(pages))
    ensures forall p :: p in SortPages(pages) <==> p in pages
  {
    var sorted := SortPages(pages);
    SortDistinct(pages);
    forall i | 0 <= i < |sorted| ensures WholePage(sorted[i]) {
      assert sorted[i] in pages;
    }
  }

  /** The segments hold these pages, apart from each other and on page boundaries. */
  ghost predicate Carries(segs: seq<Segment>, pages: seq<Page>) {
    && WholeSegments(segs) && Separate(segs)
    && (forall p :: p in Flatten(segs) <==> p in pages)
    && |Flatten(segs)| == |pages|
    && (forall i | 0 <= i < |segs| :: segs[i].addr % PAGE == 0)
  }

  lemma {:induction false} CollectedCarry(pages: seq<Page>)
    requires DistinctPages(pages)
    ensures Carries(Coalesce(SortPages(pages)), pages)
  {
    var sorted := SortPages(pages);
    SortedPagesAscend(pages);
    CoalesceKeepsPages(sorted);
    CoalesceSeparates(sorted);
  }

  /** Loading the written file puts every page at its address with its rights, and nothing else anywhere. */
  lemma {:induction false} ImageLoads(f: Elf, pages: seq<Page>)
    requires Carries(f.segs, pages) && Buildable(f)
    ensures Load(f.Image()).Some? && Denotes(Load(f.Image()).value, pages)
  {
    HeadersReadBack(f);
    SkipFront(f);
    BodyLoads(f, pages);
  }

  lemma {:induction false} BodyLoads(f: Elf, pages: seq<Page>)
    requires Carries(f.segs, pages) && f.EhdrPacks()
    ensures LoadSegments(f.Image(), LoadHeaders(f.segs, f.BodyOffset())) == Some(SegmentsMap(f.segs))
    ensures Denotes(SegmentsMap(f.segs), pages)
  {
    ImageLayout(f);
    SegmentsLoad(f.Image(), f.segs, f.BodyOffset());
    SegmentsDenotePages(f.segs);
    SameMembers(SegmentsMap(f.segs), Flatten(f.segs), pages);
  }

  lemma {:induction false} SameMembers(m: map<nat, Cell>, a: seq<Page>, b: seq<Page>)
    requires Denotes(m, a) && forall p :: p in a <==> p in b
    ensures Denotes(m, b)
  {
  }

  /** The stack and interpreter entries load nothing. */
  lemma {:induction false} SkipFront(f: Elf)
    requires f.EhdrPacks()
    ensures LoadSegments(f.Image(), f.Headers()) == LoadSegments(f.Image(), LoadHeaders(f.segs, f.BodyOffset()))
  {
    var headers, loads := f.Headers(), LoadHeaders(f.segs, f.BodyOffset());
    if f.interp == [] {
      assert headers[1..] == loads;
    } else {
      assert headers[1..][1..] == loads;
    }
  }

  lemma {:induction false} LoadHeadersMappable(segs: seq<Segment>, start: nat)
    requires WholeSegments(segs) && Separate(segs) && start % PAGE == 0
    requires forall i | 0 <= i < |segs| :: segs[i].addr % PAGE == 0
    ensures Mappable(LoadHeaders(segs, start))
    ensures forall i | 0 <= i < |segs| ::
              var h := LoadHeaders(segs, start)[i]; h.vaddr == segs[i].addr && h.memsz == |segs[i].data|
  {
    if segs != [] {
      assert WholeSegments(segs[1..]) && segs[0].data != [] && segs[0].addr % PAGE == 0;
      LoadHeadersMappable(segs[1..], start + PaddedSize(|segs[0].data|));
      var hs := LoadHeaders(segs, start);
      forall i | 0 <= i < |segs| ensures hs[i].vaddr == segs[i].addr && hs[i].memsz == |segs[i].data| {
        if i > 0 {
          assert hs[i] == hs[1..][i - 1];
        }
      }
      forall i | 0 <= i < |hs| && hs[i].kind == PT_LOAD
        ensures hs[i].align > 0 && hs[i].offset % hs[i].align == hs[i].vaddr % hs[i].align
      {
        if i > 0 {
          assert hs[i] == hs[1..][i - 1];
        }
      }
    }
  }

  /** The program header table obeys the ABI: loads ascend, stay apart, and agree with offsets modulo the page. */
  lemma {:induction false} ImageMappable(f: Elf)
    requires WholeSegments(f.segs) && Separate(f.segs)
    requires forall i | 0 <= i < |f.segs| :: f.segs[i].addr % PAGE == 0
    ensures Mappable(f.Headers())
  {
    SegmentsMappable(f.Front(), f.segs, f.BodyOffset());
  }

  lemma {:induction false} SegmentsMappable(front: seq<Phdr>, segs: seq<Segment>, start: nat)
    requires WholeSegments(segs) && Separate(segs) && start % PAGE == 0
    requires forall i | 0 <= i < |segs| :: segs[i].addr % PAGE == 0
    requires forall i | 0 <= i < |front| :: front[i].kind != PT_LOAD
    ensures Mappable(front + LoadHeaders(segs, start))
  {
    LoadHeadersMappable(segs, start);
    MappableBehind(front, LoadHeaders(segs, start));
  }

  lemma {:induction false} MappableBehind(front: seq<Phdr>, rest: seq<Phdr>)
    requires Mappable(rest) && forall i | 0 <= i < |front| :: front[i].kind != PT_LOAD
    ensures Mappable(front + rest)
  {
  }

  /** Memory is the overlay of dump and original, byte for byte and right for right. */
  ghost predicate DenotesOverlay(m: map<nat, Cell>, orig: Original, dump: Dump) {
    forall a: nat :: OverlaidAt(m, orig, dump, a)
  }

  ghost predicate OverlaidAt(m: map<nat, Cell>, orig: Original, dump: Dump, a: nat) {
    match Overlay(orig, dump, AlignDown(a))
    case None => a !in m
    case Some(p) => |p.data| == PAGE && a in m && m[a] == PageCell(p, a % PAGE)
  }

  lemma {:induction false} RealizedOverlay(m: map<nat, Cell>, pages: seq<Page>, orig: Original, dump: Dump)
    requires Realizes(pages, orig, dump) && Denotes(m, pages)
    ensures DenotesOverlay(m, orig, dump)
  {
    forall a: nat ensures OverlaidAt(m, orig, dump, a) {
      if Overlay(orig, dump, AlignDown(a)).Some? {
        var i :| 0 <= i < |pages| && pages[i].addr == AlignDown(a);
        OverlaidByPage(m, pages, orig, dump, a, pages[i]);
      } else if a in m {
        AbsentWithoutPage(m, pages, orig, dump, a);
      }
    }
  }

  lemma {:induction false} OverlaidByPage(m: map<nat, Cell>, pages: seq<Page>, orig: Original, dump: Dump, a: nat, p: Page)
    requires Realizes(pages, orig, dump) && Denotes(m, pages)
    requires p in pages && p.addr == AlignDown(a)
    ensures OverlaidAt(m, orig, dump, a)
  {
    MemberRealizes(pages, orig, dump, p);
    SamePage(a, p.addr);
    hide Overlay, Realizes, AlignDown;
    assert HoldsCell(m, p, a - p.addr);
  }

  lemma {:induction false} AbsentWithoutPage(m: map<nat, Cell>, pages: seq<Page>, orig: Original, dump: Dump, a: nat)
    requires Realizes(pages, orig, dump) && Denotes(m, pages)
    requires Overlay(orig, dump, AlignDown(a)).None?
    ensures a !in m
  {
    if a in m {
      var p :| p in pages && p.addr <= a < p.addr + |p.data|;
      MemberRealizes(pages, orig, dump, p);
      SamePage(a, p.addr);
    }
  }

  lemma {:induction false} MemberRealizes(pages: seq<Page>, orig: Original, dump: Dump, p: Page)
    requires Realizes(pages, orig, dump) && p in pages
    ensures WholePage(p) && Overlay(orig, dump, p.addr) == Some(p)
  {
  }

  /** Classify, build, load: what the rebuilt file puts in memory is the overlay. */
  method Rebuild(orig: Original, dump: Dump, entry: int, arch: Arch, interp: seq<byte>, osabi: int)
    returns (r: Result<seq<byte>, BuildError>)
    requires PageMap(orig.pages) && PageMap(dump.pages)
    ensures r.Ok? ==> Load(r.value).Some? && DenotesOverlay(Load(r.value).value, orig, dump)
    ensures r.Ok? ==> ReadHeaders(r.value).Some? && Mappable(ReadHeaders(r.value).value)
    ensures r.Ok? ==> |r.value| >= EHDR_SIZE && LoadEntry(r.value) == entry % 0x1_0000_0000
  {
    var pages := Classify(orig, dump);
    var b := Builder(pages, entry, arch, 2, interp, osabi);
    r := b.Build();
    if r.Ok? {
      CollectedCarry(pages);
      RebuiltImage(b.File(), pages, orig, dump);
    }
  }

  lemma {:induction false} RebuiltImage(f: Elf, pages: seq<Page>, orig: Original, dump: Dump)
    requires Realizes(pages, orig, dump) && Carries(f.segs, pages) && Buildable(f)
    ensures Load(f.Image()).Some? && DenotesOverlay(Load(f.Image()).value, orig, dump)
    ensures ReadHeaders(f.Image()).Some? && Mappable(ReadHeaders(f.Image()).value)
    ensures |f.Image()| >= EHDR_SIZE && LoadEntry(f.Image()) == f.oep % 0x1_0000_0000
  {
    ImageLoads(f, pages);
    RealizedOverlay(Load(f.Image()).value, pages, orig, dump);
    HeadersReadBack(f);
    ImageMappable(f);
  }

  // ----- when the build succeeds -----

  const LIMIT32: nat := 0x1_0000_0000

  lemma {:induction false} LoadsPack(segs: seq<Segment>, start: nat)
    requires forall i | 0 <= i < |segs| :: segs[i].addr < LIMIT32
    requires start + |Body(segs)| < LIMIT32
    ensures AllPackable(LoadHeaders(segs, start))
  {
    if segs != [] {
      var next := start + PaddedSize(|segs[0].data|);
      assert Body(segs) == Padded(segs[0].data) + Body(segs[1..]);
      LoadsPack(segs[1..], next);
      LimitFits(LIMIT32 - 1);
      assert Packable(LoadHeader(segs[0], start));
      assert AllPackable([LoadHeader(segs[0], start)]);
      PackableConcat([LoadHeader(segs[0], start)], LoadHeaders(segs[1..], next));
    }
  }

  lemma {:induction false} LimitFits(n: nat)
    ensures n < LIMIT32 <==> Fits(4, n)
  {
    assert Pow256(4) == 256 * Pow256(3) == LIMIT32;
  }

  lemma {:induction false} BodyLength(segs: seq<Segment>)
    requires WholeSegments(segs)
    ensures |Body(segs)| == PAGE * |Flatten(segs)|
  {
    if segs != [] {
      var n := |segs| - 1;
      BodyLength(segs[..n]);
      BodyAppend(segs[..n], segs[n]);
      assert segs == segs[..n] + [segs[n]];
      assert segs[n].data != [];
    }
  }

  lemma {:induction false} BodyAppend(segs: seq<Segment>, s: Segment)
    ensures Body(segs + [s]) == Body(segs) + Padded(s.data)
  {
    hide Padded;
    if segs == [] {
      assert Body([s]) == Padded(s.data) + Body([]);
    } else {
      BodyAppend(segs[1..], s);
      assert (segs + [s])[1..] == segs[1..] + [s];
    }
  }

  /** Pages below 4 GiB whose file stays below 4 GiB are always written. */
  lemma {:induction false} SmallImagesPack(f: Elf, pages: seq<Page>)
    requires Carries(f.segs, pages)
    requires forall p | p in pages :: p.addr < LIMIT32
    requires f.BodyOffset() + PAGE * |pages| < LIMIT32
    ensures f.HeadersPack()
  {
    BodyLength(f.segs);
    forall i | 0 <= i < |f.segs| ensures f.segs[i].addr < LIMIT32 {
      FirstPage(f.segs, i);
    }
    LoadsPack(f.segs, f.BodyOffset());
    FrontPacks(f);
    PackableConcat(f.Front(), LoadHeaders(f.segs, f.BodyOffset()));
  }

  lemma {:induction false} FirstPage(segs: seq<Segment>, i: nat)
    requires WholeSegments(segs) && i < |segs|
    ensures exists p :: p in Flatten(segs) && p.addr >= segs[i].addr
  {
    assert segs[i].data != [];
    var p := AddressInPage(segs[i], segs[i].addr);
    FlattenMembers(segs);
  }

  lemma {:induction false} FrontPacks(f: Elf)
    requires f.BodyOffset() < LIMIT32
    ensures AllPackable(f.Front())
  {
    LimitFits(LIMIT32 - 1);
    assert Packable(StackHeader);
  }
}
