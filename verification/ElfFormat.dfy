/**
 * The 32-bit little-endian ELF file as a reader sees it: System V ABI, chapter 4 section
 * "ELF Header" and chapter 5 section "Program Header".
 */
module ElfFormat {
  import opened Bytes
  import opened Wrappers

  const EHDR_SIZE: nat := 52
  const PHDR_SIZE: nat := 32
  const PT_LOAD: nat := 1
  const PT_INTERP: nat := 3
  const PT_GNU_STACK: nat := 0x6474e551

  const MAGIC: seq<byte> := [0x7f, 0x45, 0x4c, 0x46]

  datatype Phdr = Phdr(kind: nat, offset: nat, vaddr: nat, paddr: nat, filesz: nat, memsz: nat, flags: nat, align: nat)

  /** One byte of memory with the rights its segment grants. */
  datatype Cell = Cell(value: byte, readable: bool, writable: bool, executable: bool)

  function Field(file: seq<byte>, at: nat, width: nat): nat
    requires at + width <= |file|
  {
    DecodeLittle(file[at..at + width])
  }

  function ReadHeader(file: seq<byte>, at: nat): Phdr
    requires at + PHDR_SIZE <= |file|
  {
    Phdr(Field(file, at, 4), Field(file, at + 4, 4), Field(file, at + 8, 4), Field(file, at + 12, 4),
         Field(file, at + 16, 4), Field(file, at + 20, 4), Field(file, at + 24, 4), Field(file, at + 28, 4))
  }

  function ReadEntries(file: seq<byte>, phoff: nat, count: nat): seq<Phdr>
    requires phoff + PHDR_SIZE * count <= |file|
  {
    if count == 0 then []
    else ReadEntries(file, phoff, count - 1) + [ReadHeader(file, phoff + PHDR_SIZE * (count - 1))]
  }

  /** The program header table, or None when the file is not a 32-bit little-endian ELF with one. */
  function ReadHeaders(file: seq<byte>): Option<seq<Phdr>> {
    if |file| < EHDR_SIZE || file[..4] != MAGIC || file[4] != 1 || file[5] != 1 then None
    else
      var phoff, phentsize, phnum := Field(file, 28, 4), Field(file, 42, 2), Field(file, 44, 2);
      if phentsize != PHDR_SIZE || phoff + PHDR_SIZE * phnum > |file| then None
      else Some(ReadEntries(file, phoff, phnum))
  }

  predicate Bit(n: int, k: nat) {
    (if k == 0 then n else if k == 1 then n / 2 else n / 4) % 2 == 1
  }

  function CellAt(file: seq<byte>, h: Phdr, a: nat): Cell
    requires h.offset + h.filesz <= |file| && h.vaddr <= a
  {
    Cell(if a - h.vaddr < h.filesz then file[h.offset + (a - h.vaddr)] else 0,
         Bit(h.flags, 2), Bit(h.flags, 1), Bit(h.flags, 0))
  }

  function SegmentMemory(file: seq<byte>, h: Phdr): map<nat, Cell>
    requires h.offset + h.filesz <= |file|
  {
    map a: nat | h.vaddr <= a < h.vaddr + h.memsz :: CellAt(file, h, a)
  }

  /** Copy every PT_LOAD of the table to its address, in table order. */
  function LoadSegments(file: seq<byte>, headers: seq<Phdr>): Option<map<nat, Cell>> {
    if headers == [] then Some(map[])
    else
      var h := headers[0];
      if h.kind != PT_LOAD then LoadSegments(file, headers[1..])
      else if h.offset + h.filesz > |file| || h.memsz < h.filesz then None
      else
        match LoadSegments(file, headers[1..])
        case None => None
        case Some(rest) => Some(SegmentMemory(file, h) + rest)
  }

  function Load(file: seq<byte>): Option<map<nat, Cell>> {
    match ReadHeaders(file)
    case None => None
    case Some(headers) => LoadSegments(file, headers)
  }

  function LoadEntry(file: seq<byte>): nat
    requires |file| >= EHDR_SIZE
  {
    Field(file, 24, 4)
  }

  /** The loadable entries ascend by address without overlap and can be mapped page by page. */
  ghost predicate Mappable(headers: seq<Phdr>) {
    && (forall i | 0 <= i < |headers| && headers[i].kind == PT_LOAD ::
          headers[i].align > 0 && headers[i].offset % headers[i].align == headers[i].vaddr % headers[i].align)
    && (forall i, j | 0 <= i < j < |headers| && headers[i].kind == PT_LOAD && headers[j].kind == PT_LOAD ::
          headers[i].vaddr + headers[i].memsz <= headers[j].vaddr)
  }
}
