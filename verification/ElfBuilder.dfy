/** Writing the rebuilt executable: coalescing pages, laying out the file, packing the headers. */
module ElfBuilder {
  import opened Bytes
  import opened Wrappers
  import opened ElfPages
  import opened ElfClassify
  import opened ElfFormat

  datatype Arch = I386 | X86_64 | Unknown

  datatype Segment = Segment(addr: nat, data: seq<byte>, prot: int)

  datatype BuildError = FieldOutOfRange | NotImplemented | UnknownArch

  // ----- collect_pages -----

  function SegmentPages(s: Segment): (r: seq<Page>)
    requires |s.data| % PAGE == 0
  {
    seq(|s.data| / PAGE, i requires 0 <= i < |s.data| / PAGE =>
      Page(s.addr + i * PAGE, s.data[i * PAGE..(i + 1) * PAGE], s.prot))
  }

  ghost predicate WholeSegments(segs: seq<Segment>) {
    forall i | 0 <= i < |segs| :: segs[i].data != [] && |segs[i].data| % PAGE == 0
  }

  /** Cutting the segments back into pages. */
  function Flatten(segs: seq<Segment>): seq<Page>
    requires WholeSegments(segs)
  {
    if segs == [] then [] else Flatten(segs[..|segs| - 1]) + SegmentPages(segs[|segs| - 1])
  }

  predicate Mergeable(s: Segment, addr: nat, prot: int) {
    addr == s.addr + |s.data| && prot == s.prot
  }

  /** Neighbouring segments differ in protection or leave a gap. */
  ghost predicate Maximal(segs: seq<Segment>) {
    forall i | 0 <= i < |segs| - 1 :: !Mergeable(segs[i], segs[i + 1].addr, segs[i + 1].prot)
  }

  function AddPage(segs: seq<Segment>, page: Page): seq<Segment> {
    var n := |segs| - 1;
    if segs != [] && Mergeable(segs[n], page.addr, page.prot) then
      segs[..n] + [Segment(segs[n].addr, segs[n].data + page.data, segs[n].prot)]
    else
      segs + [Segment(page.addr, page.data, page.prot)]
  }

  function Coalesce(pages: seq<Page>): seq<Segment> {
    if pages == [] then [] else AddPage(Coalesce(pages[..|pages| - 1]), pages[|pages| - 1])
  }

  method CollectPages(pages: seq<Page>) returns (segs: seq<Segment>)
    ensures segs == Coalesce(pages)
  {
    if pages == [] {
      return [];
    }
    segs := [];
    var cur := Segment(pages[0].addr, pages[0].data, pages[0].prot);
    assert pages[..1][..0] == [];
    for i := 1 to |pages|
      invariant segs + [cur] == Coalesce(pages[..i])
    {
      assert pages[..i + 1][..i] == pages[..i];
      if Mergeable(cur, pages[i].addr, pages[i].prot) {
        cur := cur.(data := cur.data + pages[i].data);
      } else {
        segs := segs + [cur];
        cur := Segment(pages[i].addr, pages[i].data, pages[i].prot);
      }
    }
    segs := segs + [cur];
    assert pages[..|pages|] == pages;
  }

  lemma {:induction false} CoalesceKeepsPages(pages: seq<Page>)
    requires forall i | 0 <= i < |pages| :: WholePage(pages[i])
    ensures WholeSegments(Coalesce(pages)) && Maximal(Coalesce(pages))
    ensures Flatten(Coalesce(pages)) == pages
  {
    if pages != [] {
      var n := |pages| - 1;
      CoalesceKeepsPages(pages[..n]);
      var segs := Coalesce(pages[..n]);
      AddPageFlattens(segs, pages[n]);
      assert Coalesce(pages) == AddPage(segs, pages[n]);
      assert pages == pages[..n] + [pages[n]];
    }
  }

  lemma {:induction false} AddPageFlattens(segs: seq<Segment>, page: Page)
    requires WholeSegments(segs) && Maximal(segs) && WholePage(page)
    ensures WholeSegments(AddPage(segs, page)) && Maximal(AddPage(segs, page))
    ensures Flatten(AddPage(segs, page)) == Flatten(segs) + [page]
  {
    var n := |segs| - 1;
    var r := AddPage(segs, page);
    if segs != [] && Mergeable(segs[n], page.addr, page.prot) {
      assert r[..n] == segs[..n];
      GrownSegmentPages(segs[n], page);
      assert Flatten(segs[..n]) + SegmentPages(r[n]) == Flatten(segs) + [page];
    } else {
      assert r[..n + 1] == segs;
      assert r[n + 1].data[0 * PAGE..(0 + 1) * PAGE] == page.data;
      assert SegmentPages(r[n + 1]) == [page];
    }
  }

  lemma {:induction false} GrownSegmentPages(s: Segment, page: Page)
    requires |s.data| % PAGE == 0 && WholePage(page) && Mergeable(s, page.addr, page.prot)
    ensures SegmentPages(s.(data := s.data + page.data)) == SegmentPages(s) + [page]
  {
    var n := |s.data| / PAGE;
    var grown := s.(data := s.data + page.data);
    forall i | 0 <= i < n ensures SegmentPages(grown)[i] == SegmentPages(s)[i] {
      assert grown.data[i * PAGE..(i + 1) * PAGE] == s.data[i * PAGE..(i + 1) * PAGE];
    }
    assert grown.data[n * PAGE..(n + 1) * PAGE] == page.data;
  }

  // ----- program headers and file header -----

  function Flags(prot: int): nat {
    (if Bit(prot, 0) then 4 else 0) + (if Bit(prot, 1) then 2 else 0) + (if Bit(prot, 2) then 1 else 0)
  }

  /** The zero bytes that bring a length to a multiple of the page size. */
  function PadLength(n: nat): (r: nat)
    ensures (n + r) % PAGE == 0 && r < PAGE
  {
    if n % PAGE == 0 then 0 else PAGE - n % PAGE
  }

  function PaddedSize(n: nat): (r: nat)
    ensures r % PAGE == 0 && n <= r < n + PAGE
  {
    n + PadLength(n)
  }

  function Padded(data: seq<byte>): (r: seq<byte>)
    ensures |r| == PaddedSize(|data|) && data <= r
  {
    data + Zeros(PadLength(|data|))
  }

  function LoadHeader(s: Segment, offset: nat): Phdr {
    var size := PaddedSize(|s.data|);
    Phdr(PT_LOAD, offset, s.addr, s.addr, size, size, Flags(s.prot), PAGE)
  }

  function LoadHeaders(segs: seq<Segment>, offset: nat): (r: seq<Phdr>)
    ensures |r| == |segs|
  {
    if segs == [] then []
    else [LoadHeader(segs[0], offset)] + LoadHeaders(segs[1..], offset + PaddedSize(|segs[0].data|))
  }

  const StackHeader := Phdr(PT_GNU_STACK, 0, 0, 0, 0, 0, 6, PAGE)

  function Words(h: Phdr): (r: seq<nat>)
    ensures |r| == 8
  {
    [h.kind, h.offset, h.vaddr, h.paddr, h.filesz, h.memsz, h.flags, h.align]
  }

  function AllWords(headers: seq<Phdr>): (r: seq<nat>)
    ensures |r| == 8 * |headers|
  {
    if headers == [] then [] else AllWords(headers[..|headers| - 1]) + Words(headers[|headers| - 1])
  }

  /** The packed program header table. */
  function PackTable(headers: seq<Phdr>): (r: seq<byte>)
    ensures |r| == PHDR_SIZE * |headers|
  {
    if headers == [] then [] else PackTable(headers[..|headers| - 1]) + Table(4, Words(headers[|headers| - 1]))
  }

  lemma {:induction false} PackTableIsTable(headers: seq<Phdr>)
    ensures PackTable(headers) == Table(4, AllWords(headers))
  {
    if headers != [] {
      var n := |headers| - 1;
      PackTableIsTable(headers[..n]);
      TableAppend(4, AllWords(headers[..n]), Words(headers[n]));
    }
  }

  lemma {:induction false} PackTableConcat(a: seq<Phdr>, b: seq<Phdr>)
    ensures PackTable(a + b) == PackTable(a) + PackTable(b)
  {
    if b == [] {
      assert a + b == a;
    } else {
      var n := |b| - 1;
      PackTableConcat(a, b[..n]);
      assert a + b == (a + b[..n]) + [b[n]];
      assert b == b[..n] + [b[n]];
      PackTableStep(a + b[..n], b[n]);
      PackTableStep(b[..n], b[n]);
      Associate(PackTable(a), PackTable(b[..n]), Table(4, Words(b[n])));
    }
  }

  lemma {:induction false} Associate(x: seq<byte>, y: seq<byte>, z: seq<byte>)
    ensures (x + y) + z == x + (y + z)
  {
  }

  lemma {:induction false} PackTableStep(init: seq<Phdr>, last: Phdr)
    ensures PackTable(init + [last]) == PackTable(init) + Table(4, Words(last))
  {
    assert (init + [last])[..|init|] == init;
  }

  predicate Packable(h: Phdr) {
    && Fits(4, h.kind) && Fits(4, h.offset) && Fits(4, h.vaddr) && Fits(4, h.paddr)
    && Fits(4, h.filesz) && Fits(4, h.memsz) && Fits(4, h.flags) && Fits(4, h.align)
  }

  ghost predicate AllPackable(headers: seq<Phdr>) {
    forall k | 0 <= k < |headers| :: Packable(headers[k])
  }

  lemma {:induction false} PackableConcat(a: seq<Phdr>, b: seq<Phdr>)
    ensures AllPackable(a + b) <==> AllPackable(a) && AllPackable(b)
  {
    if AllPackable(a + b) {
      assert forall k | 0 <= k < |a| :: a[k] == (a + b)[k];
      assert forall k | 0 <= k < |b| :: b[k] == (a + b)[|a| + k];
    }
  }

  function Body(segs: seq<Segment>): seq<byte> {
    if segs == [] then [] else Padded(segs[0].data) + Body(segs[1..])
  }

  function PackEhdr(osabi: byte, eType: nat, entry: nat, count: nat): (r: seq<byte>)
    ensures |r| == EHDR_SIZE
  {
    MAGIC + [1, 1, 1, osabi, 0] + Zeros(7)
    + Table(2, [eType, 3])
    + Table(4, [1, entry, EHDR_SIZE, 0, 0])
    + Table(2, [EHDR_SIZE, PHDR_SIZE, count, 40, 0, 0])
  }

  function Join(ehdr: seq<byte>, phdrs: seq<byte>, gap: nat, interp: seq<byte>, body: seq<byte>): seq<byte> {
    ehdr + phdrs + Zeros(gap) + interp + body
  }

  /** The file to be written: its segments and header values. An empty interpreter stands for none. */
  datatype Elf = Elf(segs: seq<Segment>, oep: int, eType: int, interp: seq<byte>, osabi: int)
  {
    /** The interpreter path with its terminator. */
    function InterpData(): seq<byte> {
      if interp == [] then [] else interp + [0]
    }

    function HeaderCount(): (n: nat)
      ensures n >= 1
    {
      1 + (if interp == [] then 0 else 1) + |segs|
    }

    function DataOffset(): nat {
      PaddedSize(EHDR_SIZE + PHDR_SIZE * HeaderCount())
    }

    function BodyOffset(): nat {
      if interp == [] then DataOffset() else DataOffset() + PaddedSize(|InterpData()|)
    }

    function Front(): seq<Phdr> {
      if interp == [] then [StackHeader]
      else [StackHeader, Phdr(PT_INTERP, DataOffset(), 0, 0, |InterpData()|, |InterpData()|, 4, 1)]
    }

    function Headers(): (r: seq<Phdr>)
      ensures |r| == HeaderCount()
    {
      Front() + LoadHeaders(segs, BodyOffset())
    }

    /** No field of any header leaves the range its width allows. */
    ghost predicate HeadersPack() {
      AllPackable(Headers())
    }

    predicate EhdrPacks() {
      Fits(1, osabi) && Fits(2, eType) && Fits(2, HeaderCount())
    }

    function Ehdr(): (r: seq<byte>)
      requires EhdrPacks()
      ensures |r| == EHDR_SIZE
    {
      PackEhdr(osabi, eType, oep % 0x1_0000_0000, HeaderCount())
    }

    /** The whole file. */
    function Image(): seq<byte>
      requires EhdrPacks()
    {
      Join(Ehdr(), PackTable(Headers()), DataOffset() - (EHDR_SIZE + PHDR_SIZE * HeaderCount()),
           Padded(InterpData()), Body(segs))
    }

    method BuildPhdrs() returns (r: Result<(seq<byte>, nat), BuildError>)
      ensures r.Ok? <==> HeadersPack()
      ensures r.Ok? ==> r.value == (PackTable(Headers()), HeaderCount())
      ensures r.Err? ==> r.error == FieldOutOfRange
    {
      var offset := DataOffset();
      if interp != [] {
        offset := offset + PaddedSize(|InterpData()|);
      }
      r := PackAll(Front(), segs, offset);
    }

    method Write(phdrs: seq<byte>, count: nat) returns (out: seq<byte>)
      requires EhdrPacks() && phdrs == PackTable(Headers()) && count == HeaderCount()
      ensures out == Image()
    {
      var gap := DataOffset() - (EHDR_SIZE + PHDR_SIZE * count);
      out := WriteFile(Ehdr(), phdrs, gap, InterpData(), segs);
    }
  }

  datatype Builder = Builder(pages: seq<Page>, oep: int, arch: Arch, eType: int, interp: seq<byte>, osabi: int)
  {
    /** The file this builder is to write. */
    function File(): Elf {
      Elf(Coalesce(SortPages(pages)), oep, eType, interp, osabi)
    }

    method Build() returns (r: Result<seq<byte>, BuildError>)
      ensures r.Ok? <==> File().HeadersPack() && arch == I386 && File().EhdrPacks()
      ensures r.Ok? ==> r.value == File().Image()
      ensures !File().HeadersPack() ==> r == Err(FieldOutOfRange)
      ensures File().HeadersPack() && arch == X86_64 ==> r == Err(NotImplemented)
      ensures File().HeadersPack() && arch == Unknown ==> r == Err(UnknownArch)
    {
      var segs := CollectPages(SortPages(pages));
      r := BuildFile(Elf(segs, oep, eType, interp, osabi), arch);
    }
  }

  /** build after the pages are collected: program headers first, then the file header, then the writes. */
  method BuildFile(f: Elf, arch: Arch) returns (r: Result<seq<byte>, BuildError>)
    ensures r.Ok? <==> f.HeadersPack() && arch == I386 && f.EhdrPacks()
    ensures r.Ok? ==> r.value == f.Image()
    ensures !f.HeadersPack() ==> r == Err(FieldOutOfRange)
    ensures f.HeadersPack() && arch == X86_64 ==> r == Err(NotImplemented)
    ensures f.HeadersPack() && arch == Unknown ==> r == Err(UnknownArch)
  {
    var phdrs := f.BuildPhdrs();
    if phdrs.Err? {
      return Err(phdrs.error);
    }
    match arch {
      case X86_64 => return Err(NotImplemented);
      case Unknown => return Err(UnknownArch);
      case I386 =>
    }
    if !f.EhdrPacks() {
      return Err(FieldOutOfRange);
    }
    var out := f.Write(phdrs.value.0, phdrs.value.1);
    r := Ok(out);
  }

  /** struct.pack of headers in order: the packed bytes and how many, unless one does not fit. */
  method PackHeaders(headers: seq<Phdr>) returns (r: Result<(seq<byte>, nat), BuildError>)
    ensures r.Ok? <==> AllPackable(headers)
    ensures r.Ok? ==> r.value == (PackTable(headers), |headers|)
    ensures r.Err? ==> r.error == FieldOutOfRange
  {
    var phdrs := [];
    for i := 0 to |headers|
      invariant phdrs == PackTable(headers[..i])
      invariant forall k | 0 <= k < i :: Packable(headers[k])
    {
      if !Packable(headers[i]) {
        return Err(FieldOutOfRange);
      }
      assert headers[..i + 1][..i] == headers[..i];
      phdrs := phdrs + Table(4, Words(headers[i]));
    }
    assert headers[..|headers|] == headers;
    r := Ok((phdrs, |headers|));
  }

  method PackAll(front: seq<Phdr>, segs: seq<Segment>, start: nat) returns (r: Result<(seq<byte>, nat), BuildError>)
    ensures r.Ok? <==> AllPackable(front + LoadHeaders(segs, start))
    ensures r.Ok? ==> r.value == (PackTable(front + LoadHeaders(segs, start)), |front| + |segs|)
    ensures r.Err? ==> r.error == FieldOutOfRange
  {
    PackableConcat(front, LoadHeaders(segs, start));
    var first := PackHeaders(front);
    if first.Err? {
      return first;
    }
    var rest := PackLoads(segs, start);
    if rest.Err? {
      return rest;
    }
    PackTableConcat(front, LoadHeaders(segs, start));
    r := Ok((first.value.0 + rest.value.0, first.value.1 + rest.value.1));
  }

  /** The loop over segments: each header is placed where the bytes before it end. */
  method PackLoads(segs: seq<Segment>, start: nat) returns (r: Result<(seq<byte>, nat), BuildError>)
    ensures r.Ok? <==> AllPackable(LoadHeaders(segs, start))
    ensures r.Ok? ==> r.value == (PackTable(LoadHeaders(segs, start)), |segs|)
    ensures r.Err? ==> r.error == FieldOutOfRange
  {
    ghost var all := LoadHeaders(segs, start);
    var offset: nat := start;
    var headers: seq<Phdr> := [];
    for i := 0 to |segs|
      invariant headers == all[..i] && |all| == |segs|
      invariant all[i..] == LoadHeaders(segs[i..], offset)
    {
      assert segs[i..][0] == segs[i] && segs[i..][1..] == segs[i + 1..];
      assert all[i..][0] == all[i] && all[i..][1..] == all[i + 1..];
      headers := headers + [LoadHeader(segs[i], offset)];
      assert all[i] == LoadHeader(segs[i], offset);
      offset := offset + PaddedSize(|segs[i].data|);
    }
    assert headers == all;
    r := PackHeaders(headers);
  }

  /** The writes of build: headers, zero fill, interpreter if any, then every padded segment. */
  method WriteFile(ehdr: seq<byte>, phdrs: seq<byte>, gap: nat, interpData: seq<byte>, segs: seq<Segment>)
    returns (out: seq<byte>)
    ensures out == Join(ehdr, phdrs, gap, Padded(interpData), Body(segs))
  {
    out := ehdr + phdrs + Zeros(gap);
    if interpData != [] {
      out := out + Padded(interpData);
    }
    ghost var head := out;
    var i := 0;
    assert segs[0..] == segs;
    assert out + Body(segs) == Join(ehdr, phdrs, gap, Padded(interpData), Body(segs));
    while i < |segs|
      invariant 0 <= i <= |segs|
      invariant out + Body(segs[i..]) == Join(ehdr, phdrs, gap, Padded(interpData), Body(segs))
    {
      assert segs[i..][0] == segs[i] && segs[i..][1..] == segs[i + 1..];
      assert out + (Padded(segs[i].data) + Body(segs[i + 1..])) == (out + Padded(segs[i].data)) + Body(segs[i + 1..]);
      out := out + Padded(segs[i].data);
      i := i + 1;
    }
    assert segs[i..] == [];
    assert out + [] == out;
  }
}
