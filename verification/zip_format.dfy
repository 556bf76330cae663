/** The bytes of a "stored" ZIP archive (PKWARE APPNOTE.TXT): one local
    file header (section 4.3.7) followed by the raw data for each entry, then
    one central directory header (section 4.3.12) per entry, then the end of
    central directory record (section 4.3.16). Every integer field is
    little-endian and truncated to its width; names are stored one byte per
    character. */
module ZipFormat {
  import opened Common
  import opened Crc32

  const LocalSignature: nat := 0x0403_4B50
  const CentralSignature: nat := 0x0201_4B50
  const EndSignature: nat := 0x0605_4B50
  /** "Version needed to extract" and "version made by": 2.0. */
  const Version: nat := 20

  /** One archive member: its name and its bytes. */
  datatype Entry = Entry(name: string, data: seq<byte>)

  /** Where field k of a run of fields starts: the widths before it. */
  function Position(widths: seq<nat>, k: nat): nat
    requires k <= |widths|
  {
    if k == 0 then 0 else Position(widths, k - 1) + widths[k - 1]
  }

  /** The first k fields of a header, value j written little-endian in
      widths[j] bytes: a run of `write2` and `write4` calls, each `.set` at
      the position where the previous one ended. */
  function Fields(values: seq<nat>, widths: seq<nat>, k: nat): (r: seq<byte>)
    requires |values| == |widths| && k <= |widths|
    ensures |r| == Position(widths, k)
  {
    if k == 0 then [] else Fields(values, widths, k - 1) + LittleEndian(values[k - 1], widths[k - 1])
  }

  /** Local file header: signature, version needed, flags, method (0 =
      stored), time and date, CRC-32, compressed size, uncompressed size,
      name length, extra-field length. */
  const LocalWidths: seq<nat> := [4, 2, 2, 2, 4, 4, 4, 4, 2, 2]

  function LocalValues(crc: nat, size: nat, nameLen: nat): seq<nat>
  {
    [LocalSignature, Version, 0, 0, 0, crc, size, size, nameLen, 0]
  }

  /** The 30-byte local file header followed by the name. */
  function LocalHeader(name: seq<byte>, crc: nat, size: nat): seq<byte>
  {
    Fields(LocalValues(crc, size, |name|), LocalWidths, 10) + name
  }

  /** Central directory header: signature, version made by, version
      needed, flags, method, time and date, CRC-32, compressed size,
      uncompressed size, name length, extra length, comment length, disk
      number, internal attributes, external attributes, offset of the local
      header. */
  const CentralWidths: seq<nat> := [4, 2, 2, 2, 2, 4, 4, 4, 4, 2, 2, 2, 2, 2, 4, 4]

  function CentralValues(crc: nat, size: nat, nameLen: nat, offset: nat): seq<nat>
  {
    [CentralSignature, Version, Version, 0, 0, 0, crc, size, size, nameLen, 0, 0, 0, 0, 0, offset]
  }

  /** The 46-byte central directory header followed by the name. */
  function CentralRecord(name: seq<byte>, crc: nat, size: nat, offset: nat): seq<byte>
  {
    Fields(CentralValues(crc, size, |name|, offset), CentralWidths, 16) + name
  }

  /** End of central directory record: signature, disk number, disk of the
      directory, entries on this disk, entries in total, directory size,
      directory offset, comment length. */
  const EndWidths: seq<nat> := [4, 2, 2, 2, 2, 4, 4, 2]

  function EndValues(count: nat, cdLen: nat, cdStart: nat): seq<nat>
  {
    [EndSignature, 0, 0, count, count, cdLen, cdStart, 0]
  }

  /** The 22-byte end of central directory record. */
  function EndRecord(count: nat, cdLen: nat, cdStart: nat): seq<byte>
  {
    Fields(EndValues(count, cdLen, cdStart), EndWidths, 8)
  }

  /** An entry's local header, with the entry's CRC and length. */
  function LocalHeaderOf(e: Entry): seq<byte>
  {
    LocalHeader(Latin1(e.name), Crc(e.data), |e.data|)
  }

  /** An entry's local header followed by its data. */
  function LocalBlock(e: Entry): seq<byte>
  {
    LocalHeaderOf(e) + e.data
  }

  /** The local block of each entry, in order. */
  function LocalBlocks(es: seq<Entry>): (r: seq<seq<byte>>)
    ensures |r| == |es|
  {
    seq(|es|, k requires 0 <= k < |es| => LocalBlock(es[k]))
  }

  /** The local blocks one after another. */
  function LocalSection(es: seq<Entry>): seq<byte>
  {
    Flatten(LocalBlocks(es))
  }

  /** Where entry i's local header starts: the length of the blocks before it. */
  function Offset(es: seq<Entry>, i: nat): nat
    requires i <= |es|
  {
    |LocalSection(es[..i])|
  }

  /** Entry i's central directory header; its offset field points at entry
      i's local header. */
  function CentralRecordOf(es: seq<Entry>, i: nat): seq<byte>
    requires i < |es|
  {
    CentralRecord(Latin1(es[i].name), Crc(es[i].data), |es[i].data|, Offset(es, i))
  }

  /** The central directory header of each entry, in order. */
  function CentralRecords(es: seq<Entry>): (r: seq<seq<byte>>)
    ensures |r| == |es|
  {
    seq(|es|, k requires 0 <= k < |es| => CentralRecordOf(es, k))
  }

  /** The central directory: the headers one after another. */
  function CentralSection(es: seq<Entry>): seq<byte>
  {
    Flatten(CentralRecords(es))
  }

  /** The whole archive `generate` returns for the entries. */
  function ArchiveImage(es: seq<Entry>): seq<byte>
  {
    LocalSection(es) + CentralSection(es)
    + EndRecord(|es|, |CentralSection(es)|, |LocalSection(es)|)
  }

  /** The sum of 30 + name length + data length over the entries. */
  function LocalSize(es: seq<Entry>): nat
  {
    if es == [] then 0 else LocalSize(es[..|es| - 1]) + 30 + |es[|es| - 1].name| + |es[|es| - 1].data|
  }

  /** The sum of 46 + name length over the entries. */
  function CentralSize(es: seq<Entry>): nat
  {
    if es == [] then 0 else CentralSize(es[..|es| - 1]) + 46 + |es[|es| - 1].name|
  }

  /** Field k of a run sits where the fields before it end. */
  lemma {:induction false} FieldAt(values: seq<nat>, widths: seq<nat>, n: nat, k: nat)
    requires |values| == |widths| && k < n <= |widths|
    ensures Position(widths, k + 1) <= Position(widths, n)
    ensures Fields(values, widths, n)[Position(widths, k)..Position(widths, k + 1)]
         == LittleEndian(values[k], widths[k])
  {
    var front := Fields(values, widths, n - 1);
    if k == n - 1 {
      SliceOfConcat(front, LittleEndian(values[k], widths[k]), 0, widths[k]);
    } else {
      FieldAt(values, widths, n - 1, k);
      SliceOfFront(front, LittleEndian(values[n - 1], widths[n - 1]), Position(widths, k), Position(widths, k + 1));
    }
  }

  /** The entries of the local header's field lists. */
  lemma LocalEntries(crc: nat, size: nat, nameLen: nat)
    ensures var vs := LocalValues(crc, size, nameLen);
      |vs| == 10 && vs[0] == LocalSignature && vs[1] == Version && vs[2] == 0
      && vs[3] == 0 && vs[4] == 0 && vs[5] == crc && vs[6] == size && vs[7] == size
      && vs[8] == nameLen && vs[9] == 0
    ensures |LocalWidths| == 10
    ensures LocalWidths[0] == 4 && LocalWidths[1] == 2 && LocalWidths[2] == 2
      && LocalWidths[3] == 2 && LocalWidths[4] == 4 && LocalWidths[5] == 4
      && LocalWidths[6] == 4 && LocalWidths[7] == 4 && LocalWidths[8] == 2
      && LocalWidths[9] == 2
  {
  }

  lemma LocalPositions()
    ensures Position(LocalWidths, 1) == 4 && Position(LocalWidths, 2) == 6
    ensures Position(LocalWidths, 3) == 8 && Position(LocalWidths, 4) == 10
    ensures Position(LocalWidths, 5) == 14 && Position(LocalWidths, 6) == 18
    ensures Position(LocalWidths, 7) == 22 && Position(LocalWidths, 8) == 26
    ensures Position(LocalWidths, 9) == 28 && Position(LocalWidths, 10) == 30
  {
  }

  /** The local header is 30 + name length bytes, with signature 0x04034b50
      at 0, version 20 at 4, flags and method 0 at 6 and 8, time and date 0
      at 10, the CRC at 14, the data length as both sizes at 18 and 22, the
      name length at 26, extra length 0 at 28 and the name at 30. */
  lemma LocalHeaderLayout(name: seq<byte>, crc: nat, size: nat)
    ensures |LocalHeader(name, crc, size)| == 30 + |name|
    ensures LocalHeader(name, crc, size)[0..4] == LE4(LocalSignature)
    ensures LocalHeader(name, crc, size)[4..6] == LE2(Version)
    ensures LocalHeader(name, crc, size)[6..8] == LE2(0)
    ensures LocalHeader(name, crc, size)[8..10] == LE2(0)
    ensures LocalHeader(name, crc, size)[10..14] == LE4(0)
    ensures LocalHeader(name, crc, size)[14..18] == LE4(crc)
    ensures LocalHeader(name, crc, size)[18..22] == LE4(size)
    ensures LocalHeader(name, crc, size)[22..26] == LE4(size)
    ensures LocalHeader(name, crc, size)[26..28] == LE2(|name|)
    ensures LocalHeader(name, crc, size)[28..30] == LE2(0)
    ensures LocalHeader(name, crc, size)[30..] == name
  {
    var vs := LocalValues(crc, size, |name|);
    var f := Fields(vs, LocalWidths, 10);
    LocalPositions();
    forall k | 0 <= k < 10
      ensures (f + name)[Position(LocalWidths, k)..Position(LocalWidths, k + 1)]
           == LittleEndian(vs[k], LocalWidths[k])
    {
      FieldAt(vs, LocalWidths, 10, k);
      SliceOfFront(f, name, Position(LocalWidths, k), Position(LocalWidths, k + 1));
    }
  }

  /** The entries of the central directory header's field lists. */
  lemma CentralEntries(crc: nat, size: nat, nameLen: nat, offset: nat)
    ensures var vs := CentralValues(crc, size, nameLen, offset);
      |vs| == 16 && vs[0] == CentralSignature && vs[1] == Version && vs[2] == Version
      && vs[3] == 0 && vs[4] == 0 && vs[5] == 0 && vs[6] == crc && vs[7] == size && vs[8] == size
      && vs[9] == nameLen && vs[10] == 0 && vs[11] == 0 && vs[12] == 0 && vs[13] == 0
      && vs[14] == 0 && vs[15] == offset
    ensures |CentralWidths| == 16
    ensures CentralWidths[0] == 4 && CentralWidths[1] == 2 && CentralWidths[2] == 2
      && CentralWidths[3] == 2 && CentralWidths[4] == 2 && CentralWidths[5] == 4
      && CentralWidths[6] == 4 && CentralWidths[7] == 4 && CentralWidths[8] == 4
      && CentralWidths[9] == 2 && CentralWidths[10] == 2 && CentralWidths[11] == 2
      && CentralWidths[12] == 2 && CentralWidths[13] == 2 && CentralWidths[14] == 4
      && CentralWidths[15] == 4
  {
  }

  lemma CentralPositions()
    ensures Position(CentralWidths, 1) == 4 && Position(CentralWidths, 2) == 6
    ensures Position(CentralWidths, 3) == 8 && Position(CentralWidths, 4) == 10
    ensures Position(CentralWidths, 5) == 12 && Position(CentralWidths, 6) == 16
    ensures Position(CentralWidths, 7) == 20 && Position(CentralWidths, 8) == 24
    ensures Position(CentralWidths, 9) == 28 && Position(CentralWidths, 10) == 30
    ensures Position(CentralWidths, 11) == 32 && Position(CentralWidths, 12) == 34
    ensures Position(CentralWidths, 13) == 36 && Position(CentralWidths, 14) == 38
    ensures Position(CentralWidths, 15) == 42 && Position(CentralWidths, 16) == 46
  {
  }

  /** The central directory header is 46 + name length bytes, with
      signature 0x02014b50 at 0, versions 20 at 4 and 6, flags and method 0
      at 8 and 10, time and date 0 at 12, the CRC at 16, both sizes at 20
      and 24, the name length at 28, extra, comment, disk and attribute
      fields 0 at 30 to 41, the local header offset at 42 and the name at
      46. */
  lemma CentralRecordLayout(name: seq<byte>, crc: nat, size: nat, offset: nat)
    ensures |CentralRecord(name, crc, size, offset)| == 46 + |name|
    ensures CentralRecord(name, crc, size, offset)[0..4] == LE4(CentralSignature)
    ensures CentralRecord(name, crc, size, offset)[4..6] == LE2(Version)
    ensures CentralRecord(name, crc, size, offset)[6..8] == LE2(Version)
    ensures CentralRecord(name, crc, size, offset)[8..10] == LE2(0)
    ensures CentralRecord(name, crc, size, offset)[10..12] == LE2(0)
    ensures CentralRecord(name, crc, size, offset)[12..16] == LE4(0)
    ensures CentralRecord(name, crc, size, offset)[16..20] == LE4(crc)
    ensures CentralRecord(name, crc, size, offset)[20..24] == LE4(size)
    ensures CentralRecord(name, crc, size, offset)[24..28] == LE4(size)
    ensures CentralRecord(name, crc, size, offset)[28..30] == LE2(|name|)
    ensures CentralRecord(name, crc, size, offset)[30..32] == LE2(0)
    ensures CentralRecord(name, crc, size, offset)[32..34] == LE2(0)
    ensures CentralRecord(name, crc, size, offset)[34..36] == LE2(0)
    ensures CentralRecord(name, crc, size, offset)[36..38] == LE2(0)
    ensures CentralRecord(name, crc, size, offset)[38..42] == LE4(0)
    ensures CentralRecord(name, crc, size, offset)[42..46] == LE4(offset)
    ensures CentralRecord(name, crc, size, offset)[46..] == name
  {
    var vs := CentralValues(crc, size, |name|, offset);
    var f := Fields(vs, CentralWidths, 16);
    CentralPositions();
    forall k | 0 <= k < 16
      ensures (f + name)[Position(CentralWidths, k)..Position(CentralWidths, k + 1)]
           == LittleEndian(vs[k], CentralWidths[k])
    {
      FieldAt(vs, CentralWidths, 16, k);
      SliceOfFront(f, name, Position(CentralWidths, k), Position(CentralWidths, k + 1));
    }
  }

  /** The entries of the end record's field lists. */
  lemma EndEntries(count: nat, cdLen: nat, cdStart: nat)
    ensures var vs := EndValues(count, cdLen, cdStart);
      |vs| == 8 && vs[0] == EndSignature && vs[1] == 0 && vs[2] == 0
      && vs[3] == count && vs[4] == count && vs[5] == cdLen && vs[6] == cdStart && vs[7] == 0
    ensures |EndWidths| == 8
    ensures EndWidths[0] == 4 && EndWidths[1] == 2 && EndWidths[2] == 2
      && EndWidths[3] == 2 && EndWidths[4] == 2 && EndWidths[5] == 4
      && EndWidths[6] == 4 && EndWidths[7] == 2
  {
  }

  lemma EndPositions()
    ensures Position(EndWidths, 1) == 4 && Position(EndWidths, 2) == 6
    ensures Position(EndWidths, 3) == 8 && Position(EndWidths, 4) == 10
    ensures Position(EndWidths, 5) == 12 && Position(EndWidths, 6) == 16
    ensures Position(EndWidths, 7) == 20 && Position(EndWidths, 8) == 22
  {
  }

  /** The end record is 22 bytes, with signature 0x06054b50 at 0, disk
      numbers 0 at 4 and 6, the entry count at 8 and 10, the directory size
      at 12, the directory offset at 16 and comment length 0 at 20. */
  lemma EndRecordLayout(count: nat, cdLen: nat, cdStart: nat)
    ensures |EndRecord(count, cdLen, cdStart)| == 22
    ensures EndRecord(count, cdLen, cdStart)[0..4] == LE4(EndSignature)
    ensures EndRecord(count, cdLen, cdStart)[4..6] == LE2(0)
    ensures EndRecord(count, cdLen, cdStart)[6..8] == LE2(0)
    ensures EndRecord(count, cdLen, cdStart)[8..10] == LE2(count)
    ensures EndRecord(count, cdLen, cdStart)[10..12] == LE2(count)
    ensures EndRecord(count, cdLen, cdStart)[12..16] == LE4(cdLen)
    ensures EndRecord(count, cdLen, cdStart)[16..20] == LE4(cdStart)
    ensures EndRecord(count, cdLen, cdStart)[20..22] == LE2(0)
  {
    var vs := EndValues(count, cdLen, cdStart);
    EndPositions();
    forall k | 0 <= k < 8
      ensures Fields(vs, EndWidths, 8)[Position(EndWidths, k)..Position(EndWidths, k + 1)]
           == LittleEndian(vs[k], EndWidths[k])
    {
      FieldAt(vs, EndWidths, 8, k);
    }
  }

  /** The local section is 30 + name length + data length per entry. */
  lemma {:induction false} LocalSectionSize(es: seq<Entry>)
    ensures |LocalSection(es)| == LocalSize(es)
  {
    if es != [] {
      var n := |es|;
      var e := es[n - 1];
      LocalSectionSize(es[..n - 1]);
      assert LocalBlocks(es)[..n - 1] == LocalBlocks(es[..n - 1]);
      LocalHeaderLayout(Latin1(e.name), Crc(e.data), |e.data|);
    }
  }

  /** The central directory is 46 + name length per entry. Entry i's header
      does not depend on the entries after it. */
  lemma {:induction false} CentralSectionSize(es: seq<Entry>)
    ensures |CentralSection(es)| == CentralSize(es)
  {
    if es != [] {
      var n := |es|;
      var e := es[n - 1];
      CentralSectionSize(es[..n - 1]);
      CentralRecordsPrefix(es, n - 1);
      CentralRecordLayout(Latin1(e.name), Crc(e.data), |e.data|, Offset(es, n - 1));
    }
  }

  /** The headers of the first j entries are those of the entries alone. */
  lemma CentralRecordsPrefix(es: seq<Entry>, j: nat)
    requires j <= |es|
    ensures CentralRecords(es)[..j] == CentralRecords(es[..j])
  {
    forall k | 0 <= k < j
      ensures CentralRecords(es)[k] == CentralRecords(es[..j])[k]
    {
      assert es[..j][..k] == es[..k];
    }
  }

  /** The archive is the local blocks, the directory and the 22-byte end
      record: cdStart + cdLen + 22 bytes. */
  lemma ArchiveSize(es: seq<Entry>)
    ensures |ArchiveImage(es)| == LocalSize(es) + CentralSize(es) + 22
  {
    LocalSectionSize(es);
    CentralSectionSize(es);
    EndRecordLayout(|es|, |CentralSection(es)|, |LocalSection(es)|);
  }

  /** With no entries the archive is the end record alone, with zero
      entries, an empty directory and directory offset 0. */
  lemma EmptyArchive()
    ensures ArchiveImage([]) == EndRecord(0, 0, 0)
  {
    assert LocalBlocks([]) == [];
    assert CentralRecords([]) == [];
  }

  /** One more entry appends its local block to the local section. */
  lemma LocalSectionStep(es: seq<Entry>, i: nat)
    requires i < |es|
    ensures LocalSection(es[..i + 1]) == LocalSection(es[..i]) + LocalBlock(es[i])
  {
    assert LocalBlocks(es[..i + 1]) == LocalBlocks(es[..i]) + [LocalBlock(es[i])];
    FlattenAppend(LocalBlocks(es[..i]), LocalBlock(es[i]));
  }

  /** One more entry: its header and data extend the local section, its
      block length moves the offset on, and its central record joins the
      directory. */
  lemma EntryStep(es: seq<Entry>, i: nat)
    requires i < |es|
    ensures LocalSection(es[..i + 1]) == LocalSection(es[..i]) + (LocalHeaderOf(es[i]) + es[i].data)
    ensures Offset(es, i + 1) == Offset(es, i) + |LocalHeaderOf(es[i])| + |es[i].data|
    ensures CentralRecords(es)[..i + 1] == CentralRecords(es)[..i] + [CentralRecordOf(es, i)]
  {
    LocalSectionStep(es, i);
    PrefixStep(CentralRecords(es), i);
  }

  /** Entry i's local block, its header and then its data, sits at
      Offset(es, i) in the local section. */
  lemma LocalBlockAt(es: seq<Entry>, i: nat)
    requires i < |es|
    ensures Offset(es, i) + |LocalBlock(es[i])| <= |LocalSection(es)|
    ensures LocalSection(es)[Offset(es, i)..Offset(es, i) + |LocalBlock(es[i])|] == LocalBlock(es[i])
  {
    FlattenPartAt(LocalBlocks(es), i);
    assert LocalBlocks(es)[..i] == LocalBlocks(es[..i]);
  }

  /** The offset stored for entry i is the sum of 30 + name length + data
      length over the entries before it. */
  lemma OffsetIsLocalSize(es: seq<Entry>, i: nat)
    requires i <= |es|
    ensures Offset(es, i) == LocalSize(es[..i])
  {
    LocalSectionSize(es[..i]);
  }

  /** The archive starts with the local section. */
  lemma LocalSectionFirst(es: seq<Entry>)
    ensures |LocalSection(es)| <= |ArchiveImage(es)|
    ensures ArchiveImage(es)[..|LocalSection(es)|] == LocalSection(es)
  {
    var rest := CentralSection(es) + EndRecord(|es|, |CentralSection(es)|, |LocalSection(es)|);
    assert ArchiveImage(es) == LocalSection(es) + rest;
  }

  /** Where entry i's central directory header starts, counted from the
      start of the directory: the lengths of the headers before it. */
  function DirectoryOffset(es: seq<Entry>, i: nat): nat
    requires i <= |es|
  {
    |Flatten(CentralRecords(es)[..i])|
  }

  /** The central directory follows the local section in the archive. */
  lemma CentralSectionNext(es: seq<Entry>)
    ensures |LocalSection(es)| + |CentralSection(es)| <= |ArchiveImage(es)|
    ensures ArchiveImage(es)[|LocalSection(es)|..|LocalSection(es)| + |CentralSection(es)|] == CentralSection(es)
  {
    var local := LocalSection(es);
    var dir := CentralSection(es);
    var end := EndRecord(|es|, |dir|, |local|);
    assert ArchiveImage(es) == local + dir + end;
    SliceOfFront(local + dir, end, |local|, |local| + |dir|);
    SliceOfConcat(local, dir, 0, |dir|);
  }

  /** Entry i's central directory header sits in the directory right after
      the headers before it. */
  lemma CentralRecordAt(es: seq<Entry>, i: nat)
    requires i < |es|
    ensures DirectoryOffset(es, i) + |CentralRecordOf(es, i)| <= |CentralSection(es)|
    ensures CentralSection(es)[DirectoryOffset(es, i)..DirectoryOffset(es, i) + |CentralRecordOf(es, i)|]
         == CentralRecordOf(es, i)
  {
    FlattenPartAt(CentralRecords(es), i);
  }

  /** The end record closes the archive: its last 22 bytes record the entry
      count, the directory length and the directory start. */
  lemma EndRecordInArchive(es: seq<Entry>)
    ensures |ArchiveImage(es)| == |LocalSection(es)| + |CentralSection(es)| + 22
    ensures ArchiveImage(es)[|ArchiveImage(es)| - 22..]
         == EndRecord(|es|, |CentralSection(es)|, |LocalSection(es)|)
  {
    var front := LocalSection(es) + CentralSection(es);
    var end := EndRecord(|es|, |CentralSection(es)|, |LocalSection(es)|);
    EndRecordLayout(|es|, |CentralSection(es)|, |LocalSection(es)|);
    assert ArchiveImage(es) == front + end;
    assert (front + end)[|front|..] == end;
  }

  /** Entry i's central directory header repeats what its local header
      says: the CRC-32 and both sizes, the name length and the name; and its
      offset field holds the position of that local header. */
  lemma HeadersAgree(es: seq<Entry>, i: nat)
    requires i < |es|
    ensures |CentralRecordOf(es, i)| == 46 + |es[i].name|
    ensures |LocalHeaderOf(es[i])| == 30 + |es[i].name|
    ensures CentralRecordOf(es, i)[16..20] == LocalHeaderOf(es[i])[14..18] == LE4(Crc(es[i].data))
    ensures CentralRecordOf(es, i)[20..24] == LocalHeaderOf(es[i])[18..22] == LE4(|es[i].data|)
    ensures CentralRecordOf(es, i)[24..28] == LocalHeaderOf(es[i])[22..26] == LE4(|es[i].data|)
    ensures CentralRecordOf(es, i)[28..30] == LocalHeaderOf(es[i])[26..28] == LE2(|es[i].name|)
    ensures CentralRecordOf(es, i)[46..] == LocalHeaderOf(es[i])[30..] == Latin1(es[i].name)
    ensures CentralRecordOf(es, i)[42..46] == LE4(Offset(es, i))
  {
    var e := es[i];
    LocalHeaderLayout(Latin1(e.name), Crc(e.data), |e.data|);
    CentralRecordLayout(Latin1(e.name), Crc(e.data), |e.data|, Offset(es, i));
  }
}
