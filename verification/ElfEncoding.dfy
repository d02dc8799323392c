/**
 * ELF headers of either class and byte order as the System V ABI tabulates their fields: chapter 4 section "ELF Header"
 * and chapter 5 section "Program Header". What the inspector says of a file that carries such headers.
 */
module ElfEncoding {
  import opened Bytes
  import opened Wrappers
  import opened ElfFormat
  import opened ElfTarget

  datatype Header = Header(
    eType: nat, machine: nat, version: nat, entry: nat, phoff: nat, shoff: nat, flags: nat, ehsize: nat,
    phentsize: nat, phnum: nat, shentsize: nat, shnum: nat, shstrndx: nat)

  datatype Program = Program(
    kind: nat, offset: nat, vaddr: nat, paddr: nat, filesz: nat, memsz: nat, flags: nat, align: nat)

  /** An integer of so many bytes. */
  type Scalar = (nat, nat)

  /** The fields after the identification; addresses and offsets take eight bytes in a 64-bit file. */
  function HeaderFields(wide: bool, h: Header): seq<Scalar> {
    var a := if wide then 8 else 4;
    [(2, h.eType), (2, h.machine), (4, h.version), (a, h.entry), (a, h.phoff), (a, h.shoff), (4, h.flags), (2, h.ehsize),
     (2, h.phentsize), (2, h.phnum), (2, h.shentsize), (2, h.shnum), (2, h.shstrndx)]
  }

  /** A 64-bit entry has its flags second. */
  function ProgramFields(wide: bool, p: Program): seq<Scalar> {
    if wide then
      [(4, p.kind), (4, p.flags), (8, p.offset), (8, p.vaddr), (8, p.paddr), (8, p.filesz), (8, p.memsz), (8, p.align)]
    else
      [(4, p.kind), (4, p.offset), (4, p.vaddr), (4, p.paddr), (4, p.filesz), (4, p.memsz), (4, p.flags), (4, p.align)]
  }

  // ----- encoding -----

  function BigEndian(width: nat, n: nat): (r: seq<byte>)
    ensures |r| == width
  {
    if width == 0 then [] else BigEndian(width - 1, n / 256) + [n % 256]
  }

  function Encode(order: Endian, width: nat, n: nat): (r: seq<byte>)
    ensures |r| == width
  {
    if order == Little then LittleEndian(width, n) else BigEndian(width, n)
  }

  lemma {:induction false} DecodeBigEncoded(width: nat, n: nat)
    requires Fits(width, n)
    ensures DecodeBig(BigEndian(width, n)) == n
  {
    if width > 0 {
      assert n / 256 < Pow256(width - 1);
      DecodeBigEncoded(width - 1, n / 256);
      assert BigEndian(width, n)[..width - 1] == BigEndian(width - 1, n / 256);
    }
  }

  lemma {:induction false} DecodeOrder(order: Endian, width: nat, n: nat)
    requires Fits(width, n)
    ensures Decode(order, Encode(order, width, n)) == n
  {
    DecodeEncoded(width, n);
    DecodeBigEncoded(width, n);
  }

  /** Where field k begins. */
  function Offset(fields: seq<Scalar>, k: nat): nat
    requires k <= |fields|
  {
    if k == 0 then 0 else Offset(fields, k - 1) + fields[k - 1].0
  }

  /** The first k fields, one after the other. */
  function Packed(order: Endian, fields: seq<Scalar>, k: nat): (r: seq<byte>)
    requires k <= |fields|
    ensures |r| == Offset(fields, k)
  {
    if k == 0 then [] else Packed(order, fields, k - 1) + Encode(order, fields[k - 1].0, fields[k - 1].1)
  }

  predicate AllFit(fields: seq<Scalar>) {
    forall k | 0 <= k < |fields| :: Fits(fields[k].0, fields[k].1)
  }

  /** The fields lie at this place of the file, one after the other. */
  predicate LiesAt(file: seq<byte>, at: nat, order: Endian, fields: seq<Scalar>) {
    at + Offset(fields, |fields|) <= |file| && file[at..at + Offset(fields, |fields|)] == Packed(order, fields, |fields|)
  }

  lemma {:induction false} FieldLies(file: seq<byte>, at: nat, order: Endian, fields: seq<Scalar>, n: nat, k: nat)
    requires k < n <= |fields| && at + Offset(fields, n) <= |file|
    requires file[at..at + Offset(fields, n)] == Packed(order, fields, n)
    ensures at + Offset(fields, k) + fields[k].0 <= |file|
    ensures file[at + Offset(fields, k)..at + Offset(fields, k) + fields[k].0] == Encode(order, fields[k].0, fields[k].1)
    decreases n
  {
    hide Encode;
    var before, last := Packed(order, fields, n - 1), Encode(order, fields[n - 1].0, fields[n - 1].1);
    Halves(file, at, before, last);
    if k < n - 1 {
      FieldLies(file, at, order, fields, n - 1, k);
      OffsetGrows(fields, k + 1, n);
    }
  }

  lemma {:induction false} OffsetGrows(fields: seq<Scalar>, k: nat, n: nat)
    requires k <= n <= |fields|
    ensures Offset(fields, k) <= Offset(fields, n)
  {
    if k < n {
      OffsetGrows(fields, k, n - 1);
    }
  }

  lemma {:induction false} Halves(file: seq<byte>, at: nat, before: seq<byte>, last: seq<byte>)
    requires at + |before| + |last| <= |file| && file[at..at + |before| + |last|] == before + last
    ensures file[at..at + |before|] == before
    ensures file[at + |before|..at + |before| + |last|] == last
  {
    SliceOfSlice(file, at, at + |before| + |last|, 0, |before|);
    SliceOfSlice(file, at, at + |before| + |last|, |before|, |before| + |last|);
    assert (before + last)[0..|before|] == before && (before + last)[|before|..|before| + |last|] == last;
  }

  /** A field of a run that lies in a file reads back. */
  lemma {:induction false} FieldReads(file: seq<byte>, at: nat, order: Endian, fields: seq<Scalar>, k: nat)
    requires LiesAt(file, at, order, fields) && AllFit(fields) && k < |fields|
    ensures at + Offset(fields, k) + fields[k].0 <= |file|
    ensures Num(order, file, at + Offset(fields, k), fields[k].0) == fields[k].1
  {
    FieldLies(file, at, order, fields, |fields|, k);
    DecodeOrder(order, fields[k].0, fields[k].1);
  }

  // ----- files that carry headers -----

  function HeaderSize(wide: bool): nat {
    if wide then 64 else 52
  }

  function EntrySize(wide: bool): nat {
    if wide then 56 else 32
  }

  /** The identification: the magic number, the class, the byte order and ten more bytes, then the header's fields. */
  predicate CarriesHeader(file: seq<byte>, wide: bool, order: Endian, h: Header) {
    && |file| >= HeaderSize(wide)
    && file[..4] == MAGIC && file[4] == (if wide then 2 else 1) && file[5] == (if order == Little then 1 else 2)
    && LiesAt(file, 16, order, HeaderFields(wide, h)) && AllFit(HeaderFields(wide, h))
  }

  /** The program header table is in the file, behind the header, in entries that are large enough. */
  predicate TableFits(wide: bool, h: Header, size: nat) {
    h.phnum > 0 ==>
      h.phentsize >= EntrySize(wide) && h.phoff >= HeaderSize(wide) && h.phoff + h.phentsize * h.phnum <= size
  }

  predicate CarriesTable(file: seq<byte>, wide: bool, order: Endian, h: Header, programs: seq<Program>) {
    && |programs| == h.phnum
    && forall i | 0 <= i < |programs| :: CarriesEntry(file, wide, order, h.phoff + i * h.phentsize, programs[i])
  }

  predicate CarriesEntry(file: seq<byte>, wide: bool, order: Endian, at: nat, p: Program) {
    LiesAt(file, at, order, ProgramFields(wide, p)) && AllFit(ProgramFields(wide, p))
  }

  /** The entry names an acceptable interpreter: a terminated UTF-8 path of 1 to 4095 bytes inside the file. */
  predicate NamesInterpreter(file: seq<byte>, p: Program) {
    && 2 <= p.filesz <= 4096 && p.offset + p.filesz <= |file| && file[p.offset + p.filesz - 1] == 0
    && ValidUtf8(file[p.offset..p.offset + p.filesz - 1]) && ValidInterpreter(file[p.offset..p.offset + p.filesz - 1])
  }

  /** At most one entry is of the interpreter's kind, and what it names is acceptable. */
  predicate InterpreterSound(file: seq<byte>, programs: seq<Program>) {
    && (forall i, j | 0 <= i < j < |programs| :: programs[i].kind != 3 || programs[j].kind != 3)
    && (forall i | 0 <= i < |programs| && programs[i].kind == 3 :: NamesInterpreter(file, programs[i]))
  }

  // ----- reading them -----

  lemma {:induction false} HeaderOffsets(wide: bool, h: Header)
    ensures var fields, a := HeaderFields(wide, h), if wide then 8 else 4;
            && Offset(fields, 0) == 0 && Offset(fields, 1) == 2 && Offset(fields, 3) == 8 && Offset(fields, 4) == 8 + a
            && Offset(fields, 8) == 14 + 3 * a && Offset(fields, 9) == 16 + 3 * a && Offset(fields, 13) == 24 + 3 * a
  {
    var fields := HeaderFields(wide, h);
    assert Offset(fields, 1) == 2 && Offset(fields, 2) == 4 && Offset(fields, 3) == 8;
    assert Offset(fields, 5) == Offset(fields, 4) + fields[4].0 && Offset(fields, 6) == Offset(fields, 5) + fields[5].0;
    assert Offset(fields, 7) == Offset(fields, 6) + 4 && Offset(fields, 8) == Offset(fields, 7) + 2;
    assert Offset(fields, 10) == Offset(fields, 9) + 2 && Offset(fields, 11) == Offset(fields, 10) + 2;
    assert Offset(fields, 12) == Offset(fields, 11) + 2;
  }

  lemma {:induction false} HeaderReads(file: seq<byte>, wide: bool, order: Endian, h: Header)
    requires CarriesHeader(file, wide, order, h)
    ensures Num(order, file, 16, 2) == h.eType && Num(order, file, 18, 2) == h.machine
    ensures var a := if wide then 8 else 4;
            && Num(order, file, 24, a) == h.entry && Num(order, file, 24 + a, a) == h.phoff
            && Num(order, file, 30 + 3 * a, 2) == h.phentsize && Num(order, file, 32 + 3 * a, 2) == h.phnum
  {
    hide LiesAt, AllFit, Num, Offset;
    var fields := HeaderFields(wide, h);
    HeaderOffsets(wide, h);
    FieldReads(file, 16, order, fields, 0);
    FieldReads(file, 16, order, fields, 1);
    FieldReads(file, 16, order, fields, 3);
    FieldReads(file, 16, order, fields, 4);
    FieldReads(file, 16, order, fields, 8);
    FieldReads(file, 16, order, fields, 9);
  }

  lemma {:induction false} EntryOffsets(wide: bool, p: Program)
    ensures var fields := ProgramFields(wide, p);
            && Offset(fields, 0) == 0 && Offset(fields, 8) == EntrySize(wide)
            && if wide then Offset(fields, 2) == 8 && Offset(fields, 5) == 32 else Offset(fields, 1) == 4 && Offset(fields, 4) == 16
  {
    var fields := ProgramFields(wide, p);
    assert Offset(fields, 1) == 4 && Offset(fields, 2) == 8;
    assert Offset(fields, 3) == Offset(fields, 2) + fields[2].0 && Offset(fields, 4) == Offset(fields, 3) + fields[3].0;
    assert Offset(fields, 5) == Offset(fields, 4) + fields[4].0 && Offset(fields, 6) == Offset(fields, 5) + fields[5].0;
    assert Offset(fields, 7) == Offset(fields, 6) + fields[6].0;
  }

  lemma {:induction false} EntryReads(file: seq<byte>, wide: bool, order: Endian, at: nat, p: Program)
    requires CarriesEntry(file, wide, order, at, p)
    ensures at + EntrySize(wide) <= |file| && Num(order, file, at, 4) == p.kind
    ensures if wide then Num(order, file, at + 8, 8) == p.offset && Num(order, file, at + 32, 8) == p.filesz
            else Num(order, file, at + 4, 4) == p.offset && Num(order, file, at + 16, 4) == p.filesz
  {
    EntryLies(file, wide, order, at, p);
    hide LiesAt, AllFit, Num, Offset;
    var fields := ProgramFields(wide, p);
    EntryOffsets(wide, p);
    FieldReads(file, at, order, fields, 0);
    FieldReads(file, at, order, fields, if wide then 2 else 1);
    FieldReads(file, at, order, fields, if wide then 5 else 4);
  }

  lemma {:induction false} EntryLies(file: seq<byte>, wide: bool, order: Endian, at: nat, p: Program)
    requires CarriesEntry(file, wide, order, at, p)
    ensures at + EntrySize(wide) <= |file|
  {
    EntryOffsets(wide, p);
    hide Offset;
  }

  lemma {:induction false} InterpreterRead(file: seq<byte>, p: Program)
    ensures ReadInterpreter(file, p.offset, p.filesz).Ok? <==> NamesInterpreter(file, p)
    ensures NamesInterpreter(file, p) ==>
              ReadInterpreter(file, p.offset, p.filesz) == Ok(file[p.offset..p.offset + p.filesz - 1])
  {
    hide ValidUtf8, ValidInterpreter;
    if 2 <= p.filesz <= 4096 && p.offset + p.filesz <= |file| {
      var raw := file[p.offset..p.offset + p.filesz];
      assert raw[p.filesz - 1] == file[p.offset + p.filesz - 1];
      assert raw[..p.filesz - 1] == file[p.offset..p.offset + p.filesz - 1];
    }
  }

  // ----- what the inspector says -----

  /** The interpreter scanned from entry i on: found before, or named by the one entry of that kind. */
  lemma {:induction false} ScanReads(
    file: seq<byte>, t: Table, programs: seq<Program>, i: nat, found: Option<seq<byte>>)
    requires InBounds(t, |file|) && i <= t.count == |programs|
    requires forall k | i <= k < t.count ::
               EntryAt(file, t, k) == Entry(programs[k].kind, programs[k].offset, programs[k].filesz)
    ensures ScanEntries(file, t, i, found).Ok? <==>
              InterpreterSound(file, programs[i..]) && (found.Some? ==> !HasInterpreter(programs[i..]))
    ensures ScanEntries(file, t, i, found).Ok? ==>
              (!HasInterpreter(programs[i..]) ==> ScanEntries(file, t, i, found).value == found)
              && forall k | i <= k < |programs| && programs[k].kind == 3 ::
                   Names(file, programs[k], ScanEntries(file, t, i, found).value)
    decreases t.count - i
  {
    hide NamesInterpreter, ReadInterpreter, EntryAt, InBounds, Names;
    if i < t.count {
      var p := programs[i];
      FirstAndRest(file, programs, i);
      InterpreterRead(file, p);
      var next := Consider(file, EntryAt(file, t, i), found);
      if next.Ok? {
        ScanReads(file, t, programs, i + 1, next.value);
        if p.kind == 3 {
          NamedIs(file, p, next.value);
        }
      }
    }
  }

  predicate HasInterpreter(programs: seq<Program>) {
    exists i :: 0 <= i < |programs| && programs[i].kind == 3
  }

  /** The interpreter is what this entry names. */
  predicate Names(file: seq<byte>, p: Program, interpreter: Option<seq<byte>>) {
    NamesInterpreter(file, p) && interpreter == Some(file[p.offset..p.offset + p.filesz - 1])
  }

  lemma {:induction false} NamedIs(file: seq<byte>, p: Program, interpreter: Option<seq<byte>>)
    requires NamesInterpreter(file, p) && interpreter == Some(file[p.offset..p.offset + p.filesz - 1])
    ensures Names(file, p, interpreter)
  {
  }

  lemma {:induction false} FirstAndRest(file: seq<byte>, programs: seq<Program>, i: nat)
    requires i < |programs|
    ensures HasInterpreter(programs[i..]) <==> programs[i].kind == 3 || HasInterpreter(programs[i + 1..])
    ensures InterpreterSound(file, programs[i..]) <==>
              && InterpreterSound(file, programs[i + 1..])
              && (programs[i].kind == 3 ==> NamesInterpreter(file, programs[i]) && !HasInterpreter(programs[i + 1..]))
  {
    hide NamesInterpreter;
    var all, rest := programs[i..], programs[i + 1..];
    assert all[0] == programs[i] && forall k | 0 <= k < |rest| :: all[k + 1] == rest[k];
    assert forall k | 0 < k < |all| :: all[k] == rest[k - 1];
  }

  /** The inspector's view of the table is the entries the file carries. */
  lemma {:induction false} TableReads(file: seq<byte>, wide: bool, order: Endian, h: Header, programs: seq<Program>)
    requires TableFits(wide, h, |file|) && CarriesTable(file, wide, order, h, programs)
    ensures |programs| == h.phnum
    ensures var t := TableFor(wide, order, h);
            InBounds(t, |file|)
            && forall k | 0 <= k < t.count ::
                 EntryAt(file, t, k) == Entry(programs[k].kind, programs[k].offset, programs[k].filesz)
  {
    hide CarriesEntry, Num;
    var t := TableFor(wide, order, h);
    forall k | 0 <= k < t.count
      ensures EntryAt(file, t, k) == Entry(programs[k].kind, programs[k].offset, programs[k].filesz)
    {
      EntryReads(file, wide, order, h.phoff + k * h.phentsize, programs[k]);
    }
  }

  /** An architecture and byte order by machine number, as the descriptor names them. */
  predicate ArchitectureIs(d: Descriptor) {
    && (d.machineId == 3 <==> d.arch == I386Machine) && (d.machineId == 40 <==> d.arch == Arm)
    && (d.machineId == 62 <==> d.arch == X86Machine) && (d.machineId == 183 <==> d.arch == AArch64)
    && (d.machineId == 8 && d.order == Little <==> d.arch == MipsEl)
    && (d.machineId == 8 && d.order == Big <==> d.arch == Mips)
    && (d.machineId !in {3, 8, 40, 62, 183} <==> d.arch == UnknownMachine(d.machineId))
  }

  /** What inspection says of any file that carries these headers, and when it accepts one. */
  lemma {:induction false} InspectsEncoded(
    file: seq<byte>, wide: bool, order: Endian, h: Header, programs: seq<Program>)
    requires CarriesHeader(file, wide, order, h)
    requires TableFits(wide, h, |file|) ==> CarriesTable(file, wide, order, h, programs)
    ensures InspectSpec(file).Ok? <==>
              h.phnum <= 4096 && TableFits(wide, h, |file|) && InterpreterSound(file, programs)
    ensures InspectSpec(file).Ok? ==>
              var d := InspectSpec(file).value;
              && d.elfClass == (if wide then 64 else 32) && d.order == order
              && d.fileType == h.eType && d.machineId == h.machine && d.entry == h.entry
              && (d.pie <==> h.eType == 3) && (d.isStatic <==> d.interpreter.None?) && ArchitectureIs(d)
              && (!HasInterpreter(programs) ==> d.interpreter == None)
              && forall i | 0 <= i < |programs| && programs[i].kind == 3 :: Names(file, programs[i], d.interpreter)
  {
    hide InspectSpec, CarriesHeader, CarriesTable, ScanEntries, InterpreterSound, HasInterpreter, Names, ArchitectureIs, InBounds,
         EntryAt;
    HeaderDecides(file, wide, order, h);
    if h.phnum <= 4096 && TableFits(wide, h, |file|) {
      TableReads(file, wide, order, h, programs);
      ScanReads(file, TableFor(wide, order, h), programs, 0, None);
      assert programs[0..] == programs;
      var scan := ScanEntries(file, TableFor(wide, order, h), 0, None);
      if scan.Ok? {
        Described(file, wide, order, h, scan.value);
      }
    }
  }

  function TableFor(wide: bool, order: Endian, h: Header): Table {
    Table(order, if wide then Layout64 else Layout32, h.phoff, h.phentsize, h.phnum)
  }

  lemma {:induction false} HeaderDecides(file: seq<byte>, wide: bool, order: Endian, h: Header)
    requires CarriesHeader(file, wide, order, h)
    ensures h.phnum > 4096 || !TableFits(wide, h, |file|) ==> InspectSpec(file).Err?
    ensures h.phnum <= 4096 && TableFits(wide, h, |file|) ==>
              InBounds(TableFor(wide, order, h), |file|)
              && InspectSpec(file) ==
                   match ScanEntries(file, TableFor(wide, order, h), 0, None)
                   case Err(e) => Err(e)
                   case Ok(interp) => Ok(Describe(file, order, if wide then Layout64 else Layout32, interp))
  {
    HeaderReads(file, wide, order, h);
    hide LiesAt, AllFit, Num, ScanEntries, Describe, HeaderFields;
  }

  lemma {:induction false} Described(file: seq<byte>, wide: bool, order: Endian, h: Header, interp: Option<seq<byte>>)
    requires CarriesHeader(file, wide, order, h)
    ensures var d := Describe(file, order, if wide then Layout64 else Layout32, interp);
            && d.elfClass == (if wide then 64 else 32) && d.order == order
            && d.fileType == h.eType && d.machineId == h.machine && d.entry == h.entry
            && (d.pie <==> h.eType == 3) && (d.isStatic <==> d.interpreter.None?) && ArchitectureIs(d)
            && d.interpreter == interp
  {
    HeaderReads(file, wide, order, h);
    hide LiesAt, AllFit, Num, HeaderFields;
  }
}
