/** The headers of a 32-bit ELF file, field by field in the order of the TIS ELF
    specification, version 1.2, sections "ELF Header", "Program Header" and "Sections". */
module ElfFormat {
  import opened Bytes
  import opened Records

  datatype ElfHeader = ElfHeader(
    ident: seq<byte>, kind: int, machine: int, version: int, entry: int, phoff: int, shoff: int, flags: int,
    ehsize: int, phentsize: int, phnum: int, shentsize: int, shnum: int, shstrndx: int)
  {
    function Fields(): seq<Field> {
      [Raw(ident), Half(kind), Half(machine), Word(version), Word(entry), Word(phoff), Word(shoff), Word(flags),
       Half(ehsize), Half(phentsize), Half(phnum), Half(shentsize), Half(shnum), Half(shstrndx)]
    }

    /** The header at the start of a file. */
    ghost predicate Starts(file: seq<byte>) { |ident| == 16 && Holds(file, 0, Fields()) }
  }

  datatype ProgramHeader = ProgramHeader(
    kind: int, offset: int, vaddr: int, paddr: int, filesz: int, memsz: int, flags: int, align: int)
  {
    function Fields(): seq<Field> {
      [Word(kind), Word(offset), Word(vaddr), Word(paddr), Word(filesz), Word(memsz), Word(flags), Word(align)]
    }
  }

  datatype SectionHeader = SectionHeader(
    name: int, kind: int, flags: int, addr: int, offset: int, size: int, link: int, info: int,
    addralign: int, entsize: int)
  {
    function Fields(): seq<Field> {
      [Word(name), Word(kind), Word(flags), Word(addr), Word(offset), Word(size), Word(link), Word(info),
       Word(addralign), Word(entsize)]
    }
  }

  /** Offsets of fields that are all words. */
  lemma {:induction false} WordOffsets(fs: seq<Field>, i: nat)
    requires i <= |fs| && forall j | 0 <= j < |fs| :: fs[j].Word?
    ensures Offset(fs, i) == 4 * i
  {
    if i > 0 {
      WordOffsets(fs, i - 1);
    }
  }

  /** Offsets in the ELF header. */
  lemma HeaderOffsets(h: ElfHeader)
    requires |h.ident| == 16
    ensures var fs := h.Fields();
            && Offset(fs, 5) == 28 && Offset(fs, 6) == 32 && Offset(fs, 10) == 44
            && Offset(fs, 11) == 46 && Offset(fs, 12) == 48 && Offset(fs, 14) == 52
  {
    var fs := h.Fields();
    assert Offset(fs, 1) == 16;
    assert Offset(fs, 3) == 20;
    assert Offset(fs, 5) == 28;
    assert Offset(fs, 7) == 36;
    assert Offset(fs, 8) == 40;
    assert Offset(fs, 10) == 44;
    assert Offset(fs, 12) == 48;
    assert Offset(fs, 14) == 52;
  }
}
