/** What lies in a written file, field by field: System V ABI, chapters 4 and 5. */
module ElfWritten {
  import opened Bytes
  import opened Wrappers
  import opened ElfPages
  import opened ElfFormat
  import opened ElfBuilder
  import opened ElfImage
  import opened ElfEncoding
  import ElfTarget

  /** A run of fields of one width is a table. */
  lemma {:induction false} PackedRun(fields: seq<Scalar>, from: nat, to: nat, width: nat, values: seq<nat>)
    requires from <= to <= |fields| && |values| == to - from
    requires forall k | from <= k < to :: fields[k] == (width, values[k - from])
    ensures Packed(Little, fields, to) == Packed(Little, fields, from) + Bytes.Table(width, values)
  {
    hide Bytes.Table, Encode, LittleEndian;
    if from == to {
      NoTable(width, values);
    } else {
      var n := |values| - 1;
      PackedRun(fields, from, to - 1, width, values[..n]);
      TableAppend(width, values[..n], [values[n]]);
      assert values == values[..n] + [values[n]];
      TableOfOne(width, values[n]);
      LittleOrder(width, values[n]);
      Regroup(Packed(Little, fields, from), Bytes.Table(width, values[..n]), LittleEndian(width, values[n]));
    }
  }

  lemma {:induction false} Regroup(a: seq<byte>, b: seq<byte>, c: seq<byte>)
    ensures (a + b) + c == a + (b + c)
  {
  }

  lemma {:induction false} LittleOrder(width: nat, n: nat)
    ensures Encode(Little, width, n) == LittleEndian(width, n)
  {
  }

  lemma {:induction false} NoTable(width: nat, values: seq<nat>)
    ensures values == [] ==> Bytes.Table(width, values) == []
  {
  }

  lemma {:induction false} TableOfOne(width: nat, value: nat)
    ensures Bytes.Table(width, [value]) == LittleEndian(width, value)
  {
    assert [value][1..] == [];
    assert Bytes.Table(width, []) == [];
  }

  function WrittenHeader(f: Elf): Header
    requires f.EhdrPacks()
  {
    Header(f.eType, 3, 1, f.oep % 0x1_0000_0000, 52, 0, 0, 52, 32, f.HeaderCount(), 40, 0, 0)
  }

  lemma {:induction false} PackedHeader(h: Header)
    ensures Packed(Little, HeaderFields(false, h), 13) ==
              Bytes.Table(2, [h.eType, h.machine]) + Bytes.Table(4, [h.version, h.entry, h.phoff, h.shoff, h.flags])
              + Bytes.Table(2, [h.ehsize, h.phentsize, h.phnum, h.shentsize, h.shnum, h.shstrndx])
  {
    hide Packed, Bytes.Table;
    var fields := HeaderFields(false, h);
    PackedRun(fields, 0, 2, 2, [h.eType, h.machine]);
    PackedRun(fields, 2, 7, 4, [h.version, h.entry, h.phoff, h.shoff, h.flags]);
    PackedRun(fields, 7, 13, 2, [h.ehsize, h.phentsize, h.phnum, h.shentsize, h.shnum, h.shstrndx]);
    NothingPacked(fields);
  }

  lemma {:induction false} NothingPacked(fields: seq<Scalar>)
    ensures Packed(Little, fields, 0) == []
  {
  }

  /** The file starts as a 32-bit little-endian i386 file of the intended type and entry point, with the table behind it. */
  lemma {:induction false} WritesHeader(f: Elf)
    requires f.EhdrPacks()
    ensures CarriesHeader(f.Image(), false, Little, WrittenHeader(f))
    ensures f.Image()[6..16] == [1, f.osabi] + Zeros(8)
  {
    var file, h := f.Image(), WrittenHeader(f);
    ImageLayout(f);
    ElfTarget.TableFits(f);
    hide Elf.Image, Elf.HeaderCount;
    EhdrParts(file, f.osabi, h);
    HeaderOffsets(false, h);
    PackedHeader(h);
    HeaderFits(f);
  }

  lemma {:induction false} HeaderFits(f: Elf)
    requires f.EhdrPacks()
    ensures AllFit(HeaderFields(false, WrittenHeader(f)))
  {
    assert Pow256(2) == 0x1_0000;
    assert Pow256(4) == 0x1_0000_0000;
    hide Pow256;
  }

  lemma {:induction false} EhdrParts(file: seq<byte>, osabi: byte, h: Header)
    requires |file| >= 52 && file[..52] == PackEhdr(osabi, h.eType, h.entry, h.phnum)
    requires h == Header(h.eType, 3, 1, h.entry, 52, 0, 0, 52, 32, h.phnum, 40, 0, 0)
    ensures file[..4] == MAGIC && file[4] == 1 && file[5] == 1 && file[6..16] == [1, osabi] + Zeros(8)
    ensures file[16..52] ==
              Bytes.Table(2, [h.eType, h.machine]) + Bytes.Table(4, [h.version, h.entry, h.phoff, h.shoff, h.flags])
              + Bytes.Table(2, [h.ehsize, h.phentsize, h.phnum, h.shentsize, h.shnum, h.shstrndx])
  {
    hide Bytes.Table;
    var ehdr := PackEhdr(osabi, h.eType, h.entry, h.phnum);
    assert file[..4] == ehdr[..4] && file[6..16] == ehdr[6..16] && file[16..52] == ehdr[16..52];
  }

  // ----- the program headers -----

  /** A load of this segment: its bytes at the offset, its address twice, its rights and whole pages. */
  predicate LoadTells(file: seq<byte>, h: Phdr, s: Segment) {
    && h.kind == 1 && h.vaddr == h.paddr == s.addr && h.filesz == h.memsz == |s.data| && h.align == 0x1000
    && h.offset + |s.data| <= |file| && file[h.offset..h.offset + |s.data|] == s.data
    && h.flags < 8 && (Bit(h.flags, 2) <==> Bit(s.prot, 0)) && (Bit(h.flags, 1) <==> Bit(s.prot, 1))
    && (Bit(h.flags, 0) <==> Bit(s.prot, 2))
  }

  lemma {:induction false} LoadsTell(file: seq<byte>, segs: seq<Segment>, start: nat, i: nat)
    requires WholeSegments(segs) && start <= |file| && file[start..] == Body(segs) && i < |segs|
    ensures LoadTells(file, LoadHeaders(segs, start)[i], segs[i])
  {
    var s, rest := segs[0], segs[1..];
    assert segs[0].data != [] && |s.data| % PAGE == 0;
    assert Padded(s.data) == s.data;
    BodySplits(file, start, s.data, Body(rest));
    if i == 0 {
      FlagsMapProt(s.prot);
    } else {
      LoadsTell(file, rest, start + |s.data|, i - 1);
    }
  }

  /** A stack that is not executable, the interpreter if there is one, then the segments in order. */
  predicate Tell(file: seq<byte>, hs: seq<Phdr>, interp: seq<byte>, segs: seq<Segment>) {
    var front := if interp == [] then 1 else 2;
    && |hs| == front + |segs| && hs[0] == Phdr(0x6474e551, 0, 0, 0, 0, 0, 6, 0x1000)
    && (interp != [] ==>
          && hs[1] == Phdr(3, hs[1].offset, 0, 0, |interp| + 1, |interp| + 1, 4, 1)
          && hs[1].offset + |interp| + 1 <= |file| && file[hs[1].offset..hs[1].offset + |interp| + 1] == interp + [0])
    && forall i | 0 <= i < |segs| :: LoadTells(file, hs[front + i], segs[i])
  }

  /** Every program header of a written file. */
  lemma {:induction false} HeadersTell(f: Elf)
    requires Buildable(f) && WholeSegments(f.segs)
    ensures ReadHeaders(f.Image()).Some? && Tell(f.Image(), ReadHeaders(f.Image()).value, f.interp, f.segs)
  {
    hide Tell, Elf.Image, ReadHeaders, WholeSegments;
    HeadersReadBack(f);
    HeadersTold(f);
  }

  lemma {:induction false} HeadersTold(f: Elf)
    requires f.EhdrPacks() && WholeSegments(f.segs)
    ensures Tell(f.Image(), f.Headers(), f.interp, f.segs)
  {
    hide Tell, Elf.Image, Elf.Headers, Elf.DataOffset, Elf.BodyOffset, LoadHeaders, Body, Padded, PackTable, PackEhdr, Join;
    HeadersAre(f);
    BodyPlaced(f);
    if f.interp != [] {
      ElfTarget.InterpreterBytes(f);
    }
    Told(f.Image(), f.Headers(), f.DataOffset(), f.interp, f.segs, f.BodyOffset());
  }

  lemma {:induction false} BodyPlaced(f: Elf)
    requires f.EhdrPacks()
    ensures f.BodyOffset() <= |f.Image()| && f.Image()[f.BodyOffset()..] == Body(f.segs)
  {
    ImageLayout(f);
    hide *;
  }

  lemma {:induction false} Told(
    file: seq<byte>, hs: seq<Phdr>, offset: nat, interp: seq<byte>, segs: seq<Segment>, start: nat)
    requires var front := if interp == [] then 1 else 2;
             && |hs| == front + |segs| && hs[0] == Phdr(0x6474e551, 0, 0, 0, 0, 0, 6, 0x1000)
             && forall i | 0 <= i < |segs| :: hs[front + i] == LoadHeaders(segs, start)[i]
    requires interp != [] ==>
               && hs[1] == Phdr(3, offset, 0, 0, |interp| + 1, |interp| + 1, 4, 1)
               && offset + |interp| + 1 <= |file| && file[offset..offset + |interp| + 1] == interp + [0]
    requires WholeSegments(segs) && start <= |file| && file[start..] == Body(segs)
    ensures Tell(file, hs, interp, segs)
  {
    hide LoadTells, LoadHeaders, Body, WholeSegments;
    forall i | 0 <= i < |segs| ensures LoadTells(file, LoadHeaders(segs, start)[i], segs[i]) {
      LoadsTell(file, segs, start, i);
    }
  }

  /** The headers in order, and what the interpreter's says. */
  lemma {:induction false} HeadersAre(f: Elf)
    ensures var hs, front := f.Headers(), if f.interp == [] then 1 else 2;
            && |hs| == front + |f.segs| && hs[0] == Phdr(0x6474e551, 0, 0, 0, 0, 0, 6, 0x1000)
            && (f.interp != [] ==> hs[1] == Phdr(3, f.DataOffset(), 0, 0, |f.interp| + 1, |f.interp| + 1, 4, 1))
            && forall i | 0 <= i < |f.segs| :: hs[front + i] == LoadHeaders(f.segs, f.BodyOffset())[i]
    ensures f.interp != [] ==> f.InterpData() == f.interp + [0]
  {
    hide LoadHeaders, Elf.DataOffset, Elf.BodyOffset;
  }
}
