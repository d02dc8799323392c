/** The independent inspector of ELF targets, and what it says about a rebuilt file. */
module ElfTarget {
  import opened Bytes
  import opened Wrappers
  import opened ElfFormat
  import opened ElfBuilder
  import opened ElfImage
  import PosixPath

  datatype Machine = I386Machine | Mips | MipsEl | Arm | X86Machine | AArch64 | UnknownMachine(id: nat)

  datatype Descriptor = Descriptor(
    elfClass: nat, order: Endian, machineId: nat, arch: Machine, fileType: nat,
    interpreter: Option<seq<byte>>, isStatic: bool, pie: bool, entry: nat)

  datatype TargetError =
    | TooSmall | NotElf | BadClass | BadEncoding | TruncatedHeader | TooManyHeaders | BadEntrySize | TableOutOfBounds
    | MultipleInterp | InterpSize | InterpOutOfBounds | NotTerminated | NotUtf8 | BadInterp

  /** How the fields of one ELF class are laid out. */
  datatype Layout = Layout(
    headerSize: nat, entryAt: nat, wide: nat, phoffAt: nat, entsizeAt: nat, countAt: nat,
    phdrSize: nat, offsetAt: nat, fileszAt: nat)

  const Layout32 := Layout(52, 24, 4, 28, 42, 44, 32, 4, 16)
  const Layout64 := Layout(64, 24, 8, 32, 54, 56, 56, 8, 32)

  function Num(order: Endian, file: seq<byte>, at: nat, width: nat): nat
    requires at + width <= |file|
  {
    Decode(order, file[at..at + width])
  }

  predicate Continuation(b: byte) {
    0x80 <= b < 0xc0
  }

  /** Well-formed UTF-8: RFC 3629, section 4. */
  predicate ValidUtf8(b: seq<byte>) {
    if b == [] then true
    else if b[0] < 0x80 then ValidUtf8(b[1..])
    else if 0xc2 <= b[0] < 0xe0 then |b| >= 2 && Continuation(b[1]) && ValidUtf8(b[2..])
    else if 0xe0 <= b[0] < 0xf0 then
      && |b| >= 3 && Continuation(b[1]) && Continuation(b[2])
      && (b[0] == 0xe0 ==> b[1] >= 0xa0) && (b[0] == 0xed ==> b[1] < 0xa0)
      && ValidUtf8(b[3..])
    else if 0xf0 <= b[0] < 0xf5 then
      && |b| >= 4 && Continuation(b[1]) && Continuation(b[2]) && Continuation(b[3])
      && (b[0] == 0xf0 ==> b[1] >= 0x90) && (b[0] == 0xf4 ==> b[1] < 0x90)
      && ValidUtf8(b[4..])
    else false
  }

  function Text(b: seq<byte>): string {
    seq(|b|, i requires 0 <= i < |b| => b[i] as char)
  }

  /** A path an interpreter may have; slashes and dots are single bytes in UTF-8. */
  predicate ValidInterpreter(path: seq<byte>) {
    PosixPath.IsGuestPath(Text(path)) && path != ['/' as int]
  }

  /** The interpreter one PT_INTERP entry names. */
  function ReadInterpreter(file: seq<byte>, offset: nat, filesz: nat): Result<seq<byte>, TargetError> {
    if filesz < 2 || filesz > 4096 then Err(InterpSize)
    else if offset + filesz > |file| then Err(InterpOutOfBounds)
    else
      var raw := file[offset..offset + filesz];
      if raw[filesz - 1] != 0 then Err(NotTerminated)
      else if !ValidUtf8(raw[..filesz - 1]) then Err(NotUtf8)
      else if !ValidInterpreter(raw[..filesz - 1]) then Err(BadInterp)
      else Ok(raw[..filesz - 1])
  }

  datatype Entry = Entry(kind: nat, offset: nat, filesz: nat)

  datatype Table = Table(order: Endian, layout: Layout, phoff: nat, entsize: nat, count: nat)

  predicate InBounds(t: Table, size: nat) {
    t.layout in {Layout32, Layout64}
    && (t.count > 0 ==> t.entsize >= t.layout.phdrSize && t.phoff + t.entsize * t.count <= size)
  }

  function EntryAt(file: seq<byte>, t: Table, i: nat): Entry
    requires InBounds(t, |file|) && i < t.count
  {
    var at := t.phoff + i * t.entsize;
    EntryInBounds(t.phoff, t.entsize, t.count, i, t.layout.phdrSize, |file|);
    Entry(Num(t.order, file, at, 4),
          Num(t.order, file, at + t.layout.offsetAt, t.layout.wide),
          Num(t.order, file, at + t.layout.fileszAt, t.layout.wide))
  }

  /** The interpreter known after one more entry. */
  function Consider(file: seq<byte>, e: Entry, found: Option<seq<byte>>): Result<Option<seq<byte>>, TargetError> {
    if e.kind != PT_INTERP then Ok(found)
    else if found.Some? then Err(MultipleInterp)
    else
      match ReadInterpreter(file, e.offset, e.filesz)
      case Err(err) => Err(err)
      case Ok(path) => Ok(Some(path))
  }

  /** The outcome of scanning entries i and on, with `found` met before them. */
  function ScanEntries(file: seq<byte>, t: Table, i: nat, found: Option<seq<byte>>): Result<Option<seq<byte>>, TargetError>
    requires InBounds(t, |file|) && i <= t.count
    decreases t.count - i
  {
    if i == t.count then Ok(found)
    else
      match Consider(file, EntryAt(file, t, i), found)
      case Err(e) => Err(e)
      case Ok(next) => ScanEntries(file, t, i + 1, next)
  }

  lemma {:induction false} EntryInBounds(phoff: nat, entsize: nat, count: nat, i: nat, need: nat, size: nat)
    requires i < count && need <= entsize && phoff + entsize * count <= size
    ensures phoff + i * entsize + need <= size
  {
    Multiples(entsize, i, count);
  }

  lemma {:induction false} Multiples(entsize: nat, i: nat, count: nat)
    requires i < count
    ensures i * entsize + entsize <= entsize * count
  {
    if i + 1 < count {
      Multiples(entsize, i, count - 1);
    }
  }

  function MachineOf(id: nat, order: Endian): Machine {
    if id == 3 then I386Machine
    else if id == 8 then (if order == Little then MipsEl else Mips)
    else if id == 40 then Arm
    else if id == 62 then X86Machine
    else if id == 183 then AArch64
    else UnknownMachine(id)
  }

  function Describe(file: seq<byte>, order: Endian, layout: Layout, interp: Option<seq<byte>>): Descriptor
    requires |file| >= 64 || (layout == Layout32 && |file| >= 52)
    requires layout in {Layout32, Layout64}
  {
    var fileType, machine := Num(order, file, 16, 2), Num(order, file, 18, 2);
    Descriptor(if layout == Layout32 then 32 else 64, order, machine, MachineOf(machine, order), fileType,
               interp, interp.None?, fileType == 3, Num(order, file, layout.entryAt, layout.wide))
  }

  function InspectWith(file: seq<byte>, order: Endian, layout: Layout): Result<Descriptor, TargetError>
    requires |file| >= 52 && layout in {Layout32, Layout64}
  {
    if |file| < layout.headerSize then Err(TruncatedHeader)
    else
      var phoff := Num(order, file, layout.phoffAt, layout.wide);
      var entsize, count := Num(order, file, layout.entsizeAt, 2), Num(order, file, layout.countAt, 2);
      if count > 4096 then Err(TooManyHeaders)
      else if count > 0 && entsize < layout.phdrSize then Err(BadEntrySize)
      else if count > 0 && (phoff < layout.headerSize || phoff + entsize * count > |file|) then Err(TableOutOfBounds)
      else
        match ScanEntries(file, Table(order, layout, phoff, entsize, count), 0, None)
        case Err(e) => Err(e)
        case Ok(interp) => Ok(Describe(file, order, layout, interp))
  }

  function InspectSpec(file: seq<byte>): Result<Descriptor, TargetError> {
    if |file| < 52 then Err(TooSmall)
    else if file[..4] != MAGIC then Err(NotElf)
    else if file[4] != 1 && file[4] != 2 then Err(BadClass)
    else if file[5] != 1 && file[5] != 2 then Err(BadEncoding)
    else InspectWith(file, if file[5] == 1 then Little else Big, if file[4] == 1 then Layout32 else Layout64)
  }

  method Inspect(file: seq<byte>) returns (r: Result<Descriptor, TargetError>)
    ensures r == InspectSpec(file)
  {
    if |file| < 52 { return Err(TooSmall); }
    if file[..4] != MAGIC { return Err(NotElf); }
    var layout, order := Layout32, Little;
    if file[4] == 2 {
      layout := Layout64;
    } else if file[4] != 1 {
      return Err(BadClass);
    }
    if file[5] == 2 {
      order := Big;
    } else if file[5] != 1 {
      return Err(BadEncoding);
    }
    if |file| < layout.headerSize { return Err(TruncatedHeader); }
    var phoff := Num(order, file, layout.phoffAt, layout.wide);
    var entsize, count := Num(order, file, layout.entsizeAt, 2), Num(order, file, layout.countAt, 2);
    if count > 4096 { return Err(TooManyHeaders); }
    if count > 0 && entsize < layout.phdrSize { return Err(BadEntrySize); }
    if count > 0 && (phoff < layout.headerSize || phoff + entsize * count > |file|) { return Err(TableOutOfBounds); }
    var interp := ScanLoop(file, Table(order, layout, phoff, entsize, count));
    if interp.Err? { return Err(interp.error); }
    r := Ok(Describe(file, order, layout, interp.value));
  }

  method ScanLoop(file: seq<byte>, t: Table) returns (r: Result<Option<seq<byte>>, TargetError>)
    requires InBounds(t, |file|)
    ensures r == ScanEntries(file, t, 0, None)
  {
    var found: Option<seq<byte>> := None;
    for i := 0 to t.count
      invariant ScanEntries(file, t, i, found) == ScanEntries(file, t, 0, None)
    {
      var next := Consider(file, EntryAt(file, t, i), found);
      if next.Err? {
        return next;
      }
      found := next.value;
    }
    r := Ok(found);
  }

  // ----- the rebuilt file -----

  /** What inspecting a file built from b must say: the interpreter alone decides whether it is accepted. */
  function Expected(f: Elf): Result<Descriptor, TargetError>
    requires f.EhdrPacks()
  {
    if f.HeaderCount() > 4096 then Err(TooManyHeaders)
    else
      match ExpectedInterpreter(f.interp)
      case Err(e) => Err(e)
      case Ok(interp) => Ok(Rebuilt(f, interp))
  }

  function ExpectedInterpreter(interp: seq<byte>): Result<Option<seq<byte>>, TargetError> {
    if interp == [] then Ok(None)
    else if |interp| > 4095 then Err(InterpSize)
    else if !ValidUtf8(interp) then Err(NotUtf8)
    else if !ValidInterpreter(interp) then Err(BadInterp)
    else Ok(Some(interp))
  }

  function Rebuilt(f: Elf, interp: Option<seq<byte>>): Descriptor
    requires f.EhdrPacks()
  {
    Descriptor(32, Little, 3, I386Machine, f.eType, interp, interp.None?, f.eType == 3, f.oep % 0x1_0000_0000)
  }

  lemma {:induction false} LittleIsField(file: seq<byte>, at: nat, width: nat)
    requires at + width <= |file|
    ensures Num(Little, file, at, width) == Field(file, at, width)
  {
  }

  /** The program header table as the inspector reads it. */
  function TableOf(f: Elf): Table {
    Table(Little, Layout32, EHDR_SIZE, PHDR_SIZE, f.HeaderCount())
  }

  lemma {:induction false} EntryIsHeader(f: Elf, i: nat)
    requires Buildable(f) && i < f.HeaderCount()
    ensures InBounds(TableOf(f), |f.Image()|)
    ensures EntryAt(f.Image(), TableOf(f), i) == Entry(f.Headers()[i].kind, f.Headers()[i].offset, f.Headers()[i].filesz)
  {
    hide Elf.Image, Elf.Headers, Elf.HeaderCount, Elf.HeadersPack, EntryAt, PackTable;
    TableFits(f);
    TableInImage(f);
    PackableAt(f, i);
    PackedEntry(f.Image(), TableOf(f), f.Headers(), i);
  }

  lemma {:induction false} TableInImage(f: Elf)
    requires f.EhdrPacks() && EHDR_SIZE + PHDR_SIZE * f.HeaderCount() <= |f.Image()|
    ensures f.Image()[EHDR_SIZE..EHDR_SIZE + PHDR_SIZE * f.HeaderCount()] == PackTable(f.Headers())
  {
    ImageLayout(f);
    hide *;
  }

  lemma {:induction false} PackableAt(f: Elf, i: nat)
    requires f.HeadersPack() && i < |f.Headers()|
    ensures Packable(f.Headers()[i])
  {
  }

  lemma {:induction false} PackedEntry(file: seq<byte>, t: Table, headers: seq<Phdr>, i: nat)
    requires t == Table(Little, Layout32, EHDR_SIZE, PHDR_SIZE, |headers|) && InBounds(t, |file|) && i < |headers|
    requires EHDR_SIZE + PHDR_SIZE * |headers| <= |file|
    requires file[EHDR_SIZE..EHDR_SIZE + PHDR_SIZE * |headers|] == PackTable(headers) && Packable(headers[i])
    ensures EntryAt(file, t, i) == Entry(headers[i].kind, headers[i].offset, headers[i].filesz)
  {
    hide PackTable, Packable, ReadHeader, EntryAt, InBounds;
    ReadPackedHeader(file, EHDR_SIZE, headers, i);
    EntryOfHeader(file, t, i, headers[i]);
  }

  lemma {:induction false} EntryOfHeader(file: seq<byte>, t: Table, i: nat, h: Phdr)
    requires t.order == Little && t.layout == Layout32 && t.entsize == PHDR_SIZE
    requires InBounds(t, |file|) && i < t.count && t.phoff + PHDR_SIZE * i + PHDR_SIZE <= |file|
    requires ReadHeader(file, t.phoff + PHDR_SIZE * i) == h
    ensures EntryAt(file, t, i) == Entry(h.kind, h.offset, h.filesz)
  {
    var at := t.phoff + PHDR_SIZE * i;
    LittleIsField(file, at, 4);
    LittleIsField(file, at + 4, 4);
    LittleIsField(file, at + 16, 4);
  }

  /** Entries that name no interpreter are stepped over. */
  lemma {:induction false} ScanOthers(file: seq<byte>, t: Table, i: nat, found: Option<seq<byte>>)
    requires InBounds(t, |file|) && i <= t.count
    requires forall k | i <= k < t.count :: EntryAt(file, t, k).kind != PT_INTERP
    ensures ScanEntries(file, t, i, found) == Ok(found)
    decreases t.count - i
  {
    if i < t.count {
      ScanOthers(file, t, i + 1, found);
    }
  }

  lemma {:induction false} ScanLoads(f: Elf, i: nat, found: Option<seq<byte>>)
    requires Buildable(f) && |f.Front()| <= i <= f.HeaderCount()
    ensures InBounds(TableOf(f), |f.Image()|)
    ensures ScanEntries(f.Image(), TableOf(f), i, found) == Ok(found)
  {
    hide Elf.Image, Elf.Headers, Elf.HeadersPack, EntryAt, InBounds;
    EntryIsHeader(f, 0);
    forall k | i <= k < f.HeaderCount() ensures EntryAt(f.Image(), TableOf(f), k).kind != PT_INTERP {
      EntryIsHeader(f, k);
      LoadsFollow(f, k);
    }
    ScanOthers(f.Image(), TableOf(f), i, found);
  }

  lemma {:induction false} LoadsFollow(f: Elf, i: nat)
    requires |f.Front()| <= i < f.HeaderCount()
    ensures f.Headers()[i].kind == PT_LOAD
  {
    LoadKind(f.segs, f.BodyOffset(), i - |f.Front()|);
  }

  lemma {:induction false} LoadKind(segs: seq<Segment>, start: nat, i: nat)
    requires i < |segs|
    ensures LoadHeaders(segs, start)[i].kind == PT_LOAD
  {
    if i > 0 {
      LoadKind(segs[1..], start + PaddedSize(|segs[0].data|), i - 1);
    }
  }

  lemma {:induction false} InterpreterBytes(f: Elf)
    requires f.EhdrPacks() && f.interp != []
    ensures f.DataOffset() + |f.InterpData()| <= |f.Image()|
    ensures f.Image()[f.DataOffset()..f.DataOffset() + |f.InterpData()|] == f.InterpData()
  {
    ImageLayout(f);
    DataBeforeBody(f);
    hide *;
    PaddedPrefix(f.Image(), f.DataOffset(), f.BodyOffset(), f.InterpData());
  }

  lemma {:induction false} DataBeforeBody(f: Elf)
    ensures f.DataOffset() <= f.BodyOffset()
  {
  }

  lemma {:induction false} PaddedPrefix(file: seq<byte>, from: nat, to: nat, data: seq<byte>)
    requires from <= to <= |file| && file[from..to] == Padded(data)
    ensures from + |data| <= |file| && file[from..from + |data|] == data
  {
    assert file[from..to][..|data|] == file[from..from + |data|];
  }

  lemma {:induction false} ReadsInterpreter(f: Elf)
    requires f.EhdrPacks() && f.interp != []
    ensures ExpectedInterpreter(f.interp) ==
              match ReadInterpreter(f.Image(), f.DataOffset(), |f.InterpData()|)
              case Err(e) => Err(e)
              case Ok(path) => Ok(Some(path))
  {
    InterpreterBytes(f);
    ReadsTerminated(f.Image(), f.DataOffset(), f.interp);
  }

  lemma {:induction false} ReadsTerminated(file: seq<byte>, at: nat, interp: seq<byte>)
    requires interp != [] && at + |interp| + 1 <= |file| && file[at..at + |interp| + 1] == interp + [0]
    ensures ExpectedInterpreter(interp) ==
              match ReadInterpreter(file, at, |interp| + 1)
              case Err(e) => Err(e)
              case Ok(path) => Ok(Some(path))
  {
    hide ValidUtf8, ValidInterpreter;
    var n := |interp|;
    assert (interp + [0])[..n] == interp && (interp + [0])[n] == 0;
  }

  lemma {:induction false} ScanImage(f: Elf)
    requires Buildable(f)
    ensures InBounds(TableOf(f), |f.Image()|)
    ensures ScanEntries(f.Image(), TableOf(f), 0, None) == ExpectedInterpreter(f.interp)
  {
    hide ReadInterpreter, Elf.Image, ExpectedInterpreter, EntryAt, InBounds, Elf.DataOffset, Elf.BodyOffset, LoadHeaders,
         Elf.EhdrPacks, Elf.HeadersPack, Elf.Headers;
    var file, t := f.Image(), TableOf(f);
    EntryIsHeader(f, 0);
    FrontFirst(f);
    if f.interp == [] {
      ScanLoads(f, 1, None);
      NoInterpreter();
    } else {
      EntryIsHeader(f, 1);
      ReadsInterpreter(f);
      var read := ReadInterpreter(file, f.DataOffset(), |f.InterpData()|);
      assert ScanEntries(file, t, 0, None) == ScanEntries(file, t, 1, None);
      if read.Ok? {
        ScanLoads(f, 2, Some(read.value));
      }
    }
  }

  lemma {:induction false} NoInterpreter()
    ensures ExpectedInterpreter([]) == Ok(None)
  {
  }

  lemma {:induction false} FrontFirst(f: Elf)
    ensures f.Headers()[0] == StackHeader && StackHeader.kind != PT_INTERP
    ensures f.interp != [] ==> |f.Headers()| > 1
                               && f.Headers()[1].kind == PT_INTERP && f.Headers()[1].offset == f.DataOffset()
                               && f.Headers()[1].filesz == |f.InterpData()|
  {
    hide LoadHeaders, Elf.DataOffset, Elf.BodyOffset;
  }

  lemma {:induction false} TableFits(f: Elf)
    requires f.EhdrPacks()
    ensures EHDR_SIZE + PHDR_SIZE * f.HeaderCount() <= |f.Image()|
  {
    ImageLayout(f);
    DataBeforeBody(f);
    hide *;
  }

  /** Inspecting the written file gives back what was built, and fails exactly on a bad interpreter or too many headers. */
  lemma {:induction false} InspectsAsBuilt(f: Elf)
    requires Buildable(f)
    ensures InspectSpec(f.Image()) == Expected(f)
  {
    hide InspectSpec, ScanEntries, EhdrReads, Elf.Image, Elf.HeaderCount, Elf.HeadersPack, ExpectedInterpreter, InBounds;
    ImageEhdr(f);
    TableFits(f);
    InspectHeader(f.Image(), f.eType, f.oep % 0x1_0000_0000, f.HeaderCount());
    ScanImage(f);
  }

  /** For a file header that reads as the builder's, inspection comes down to the scan of the table. */
  lemma {:induction false} InspectHeader(file: seq<byte>, eType: nat, entry: nat, count: nat)
    requires EhdrReads(file, eType, entry, count) && 0 < count && EHDR_SIZE + PHDR_SIZE * count <= |file|
    ensures InBounds(Table(Little, Layout32, EHDR_SIZE, PHDR_SIZE, count), |file|)
    ensures InspectSpec(file) ==
              if count > 4096 then Err(TooManyHeaders)
              else
                match ScanEntries(file, Table(Little, Layout32, EHDR_SIZE, PHDR_SIZE, count), 0, None)
                case Err(e) => Err(e)
                case Ok(interp) =>
                  Ok(Descriptor(32, Little, 3, I386Machine, eType, interp, interp.None?, eType == 3, entry))
  {
    LittleIsField(file, 16, 2);
    LittleIsField(file, 18, 2);
    LittleIsField(file, 24, 4);
    LittleIsField(file, 28, 4);
    LittleIsField(file, 42, 2);
    LittleIsField(file, 44, 2);
  }
}
