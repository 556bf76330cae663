/** The `SimpleZip` class: entries are collected by `addFile` and written
    out by `generate` as a stored ZIP archive. */
module SimpleZipWriter {
  import opened Common
  import opened Crc32
  import opened ZipFormat

  /** `Uint8Array.prototype.set`: copies src into buf from index `at` on
      and leaves the rest of buf as it was. */
  method Put(buf: array<byte>, src: seq<byte>, at: nat)
    requires at + |src| <= buf.Length
    modifies buf
    ensures buf[..at] == old(buf[..at])
    ensures buf[at..at + |src|] == src
    ensures buf[at + |src|..] == old(buf[at + |src|..])
  {
    forall k | 0 <= k < |src| {
      buf[at + k] := src[k];
    }
  }

  /** n zero bytes: a freshly allocated Uint8Array. */
  function Zeros(n: nat): (r: seq<byte>)
    ensures |r| == n && forall i :: 0 <= i < n ==> r[i] == 0
  {
    seq(n, _ => 0)
  }

  /** The first k fields of a run are in place at the front of buf. */
  predicate Filled(buf: seq<byte>, values: seq<nat>, widths: seq<nat>, k: nat)
    requires |values| == |widths| && k <= |widths|
  {
    Position(widths, k) <= |buf| && buf[..Position(widths, k)] == Fields(values, widths, k)
  }

  /** `buf.set(src, at)` for field k of a header, where src is the field's
      value written little-endian: once the fields before it are in place,
      so are the first k + 1, and the length stays. The field list is
      bookkeeping only. */
  method SetField(buf: seq<byte>, src: seq<byte>, at: nat,
                  ghost values: seq<nat>, ghost widths: seq<nat>, ghost k: nat)
    returns (r: seq<byte>)
    requires |values| == |widths| && k < |widths|
    requires at == Position(widths, k) && src == LittleEndian(values[k], widths[k])
    requires at + |src| <= |buf|
    requires Filled(buf, values, widths, k)
    ensures |r| == |buf|
    ensures Filled(r, values, widths, k + 1)
  {
    r := buf[..at] + src + buf[at + |src|..];
    assert r[..at + |src|] == buf[..at] + src;
  }

  /** `buf.set(src, at)` for the name that ends a header: with all fields
      in place, the header is the fields followed by src. */
  method SetTail(buf: seq<byte>, src: seq<byte>, at: nat,
                 ghost values: seq<nat>, ghost widths: seq<nat>)
    returns (r: seq<byte>)
    requires |values| == |widths| && at == Position(widths, |widths|)
    requires at + |src| == |buf|
    requires Filled(buf, values, widths, |widths|)
    ensures r == Fields(values, widths, |widths|) + src
  {
    r := buf[..at] + src;
  }

  /** The local file header as `generate` fills it, field by field. */
  method WriteLocalHeader(nameBytes: seq<byte>, crc: nat, len: nat) returns (header: seq<byte>)
    ensures header == LocalHeader(nameBytes, crc, len)
  {
    ghost var vs := LocalValues(crc, len, |nameBytes|);
    LocalPositions();
    LocalEntries(crc, len, |nameBytes|);
    header := Zeros(30 + |nameBytes|);
    header := SetField(header, LE4(LocalSignature), 0, vs, LocalWidths, 0);
    header := SetField(header, LE2(Version), 4, vs, LocalWidths, 1);
    header := SetField(header, LE2(0), 6, vs, LocalWidths, 2);
    header := SetField(header, LE2(0), 8, vs, LocalWidths, 3);
    header := SetField(header, LE4(0), 10, vs, LocalWidths, 4);
    header := SetField(header, LE4(crc), 14, vs, LocalWidths, 5);
    header := SetField(header, LE4(len), 18, vs, LocalWidths, 6);
    header := SetField(header, LE4(len), 22, vs, LocalWidths, 7);
    header := SetField(header, LE2(|nameBytes|), 26, vs, LocalWidths, 8);
    header := SetField(header, LE2(0), 28, vs, LocalWidths, 9);
    header := SetTail(header, nameBytes, 30, vs, LocalWidths);
  }

  /** The central directory header as `generate` fills it, field by field. */
  method WriteCentralRecord(nameBytes: seq<byte>, crc: nat, len: nat, offset: nat)
    returns (cd: seq<byte>)
    ensures cd == CentralRecord(nameBytes, crc, len, offset)
  {
    ghost var vs := CentralValues(crc, len, |nameBytes|, offset);
    CentralPositions();
    CentralEntries(crc, len, |nameBytes|, offset);
    cd := Zeros(46 + |nameBytes|);
    cd := SetField(cd, LE4(CentralSignature), 0, vs, CentralWidths, 0);
    cd := SetField(cd, LE2(Version), 4, vs, CentralWidths, 1);
    cd := SetField(cd, LE2(Version), 6, vs, CentralWidths, 2);
    cd := SetField(cd, LE2(0), 8, vs, CentralWidths, 3);
    cd := SetField(cd, LE2(0), 10, vs, CentralWidths, 4);
    cd := SetField(cd, LE4(0), 12, vs, CentralWidths, 5);
    cd := SetField(cd, LE4(crc), 16, vs, CentralWidths, 6);
    cd := SetField(cd, LE4(len), 20, vs, CentralWidths, 7);
    cd := SetField(cd, LE4(len), 24, vs, CentralWidths, 8);
    cd := SetField(cd, LE2(|nameBytes|), 28, vs, CentralWidths, 9);
    cd := SetField(cd, LE2(0), 30, vs, CentralWidths, 10);
    cd := SetField(cd, LE2(0), 32, vs, CentralWidths, 11);
    cd := SetField(cd, LE2(0), 34, vs, CentralWidths, 12);
    cd := SetField(cd, LE2(0), 36, vs, CentralWidths, 13);
    cd := SetField(cd, LE4(0), 38, vs, CentralWidths, 14);
    cd := SetField(cd, LE4(offset), 42, vs, CentralWidths, 15);
    cd := SetTail(cd, nameBytes, 46, vs, CentralWidths);
  }

  /** The end of central directory record as `generate` fills it. */
  method WriteEndRecord(count: nat, cdLen: nat, cdStart: nat) returns (eocd: seq<byte>)
    ensures eocd == EndRecord(count, cdLen, cdStart)
  {
    ghost var vs := EndValues(count, cdLen, cdStart);
    EndPositions();
    EndEntries(count, cdLen, cdStart);
    eocd := Zeros(22);
    eocd := SetField(eocd, LE4(EndSignature), 0, vs, EndWidths, 0);
    eocd := SetField(eocd, LE2(0), 4, vs, EndWidths, 1);
    eocd := SetField(eocd, LE2(0), 6, vs, EndWidths, 2);
    eocd := SetField(eocd, LE2(count), 8, vs, EndWidths, 3);
    eocd := SetField(eocd, LE2(count), 10, vs, EndWidths, 4);
    eocd := SetField(eocd, LE4(cdLen), 12, vs, EndWidths, 5);
    eocd := SetField(eocd, LE4(cdStart), 16, vs, EndWidths, 6);
    eocd := SetField(eocd, LE2(0), 20, vs, EndWidths, 7);
    assert eocd == eocd[..Position(EndWidths, 8)];
  }

    /** `parts.reduce((acc, part) => acc + part.length, 0)`: the size of the
      parts laid end to end. */
  function TotalLength(parts: seq<seq<byte>>): (n: nat)
    ensures n == |Flatten(parts)|
  {
    if parts == [] then 0 else TotalLength(parts[..|parts| - 1]) + |parts[|parts| - 1]|
  }

  /** Copies the parts one after another into a fresh array, as the final
      loop of `generate` does with `finalZip.set(part, pos)`. */
  method Concat(parts: seq<seq<byte>>) returns (out: array<byte>)
    ensures fresh(out)
    ensures out[..] == Flatten(parts)
  {
    var totalSize := TotalLength(parts);
    out := new byte[totalSize];
    var pos := 0;
    for j := 0 to |parts|
      invariant pos == |Flatten(parts[..j])| <= totalSize
      invariant out[..pos] == Flatten(parts[..j])
    {
      FlattenPrefix(parts, j + 1);
      assert parts[..j + 1] == parts[..j] + [parts[j]];
      FlattenAppend(parts[..j], parts[j]);
      Put(out, parts[j], pos);
      JoinSlices(out[..], pos, pos + |parts[j]|, Flatten(parts[..j]), parts[j]);
      pos := pos + |parts[j]|;
    }
    assert parts[..|parts|] == parts;
    assert out[..] == out[..pos];
  }

  /** The body of the per-file loop of `generate` for entry i, met when
      offset bytes of local blocks precede it: the name bytes, the CRC-32 of
      the data, the local header and the central directory header. */
  method EncodeEntry(crcTable: array<nat>, files: seq<Entry>, i: nat, offset: nat)
    returns (header: seq<byte>, cd: seq<byte>)
    requires crcTable[..] == CrcTable()
    requires i < |files| && offset == Offset(files, i)
    ensures header == LocalHeaderOf(files[i])
    ensures cd == CentralRecordOf(files, i)
  {
    var file := files[i];
    var nameBytes := StoreChars(file.name);
    var crc := ComputeCrc32(crcTable, file.data);
    var len := |file.data|;
    header := WriteLocalHeader(nameBytes[..], crc, len);
    cd := WriteCentralRecord(nameBytes[..], crc, len, offset);
  }

  /** The second loop of `generate`: every central record is pushed after
      the local blocks, and cdLen sums their lengths. */
  method PushDirectory(parts: seq<seq<byte>>, centralDirectory: seq<seq<byte>>)
    returns (parts': seq<seq<byte>>, cdLen: nat)
    ensures parts' == parts + centralDirectory
    ensures cdLen == |Flatten(centralDirectory)|
  {
    parts' := parts;
    cdLen := 0;
    for j := 0 to |centralDirectory|
      invariant parts' == parts + centralDirectory[..j]
      invariant cdLen == |Flatten(centralDirectory[..j])|
    {
      assert centralDirectory[..j + 1] == centralDirectory[..j] + [centralDirectory[j]];
      FlattenAppend(centralDirectory[..j], centralDirectory[j]);
      parts' := parts' + [centralDirectory[j]];
      cdLen := cdLen + |centralDirectory[j]|;
    }
    assert centralDirectory[..|centralDirectory|] == centralDirectory;
  }

  class SimpleZip {
    /** The entries added so far, in the order they were added. */
    var files: seq<Entry>

    constructor()
      ensures files == []
    {
      files := [];
    }

    /** `addFile`: appends one entry; earlier entries keep their places. */
    method AddFile(name: string, data: seq<byte>)
      modifies this
      ensures files == old(files) + [Entry(name, data)]
    {
      files := files + [Entry(name, data)];
    }

    /** `generate`: the stored archive of the entries. It changes nothing,
        so calling it again gives the same bytes. */
    method Generate() returns (zip: array<byte>)
      ensures fresh(zip)
      ensures zip[..] == ArchiveImage(files)
    {
      var entries := files;
      var parts: seq<seq<byte>> := [];
      var centralDirectory: seq<seq<byte>> := [];
      var offset: nat := 0;
      var crcTable := BuildCrcTable();

      for i := 0 to |entries|
        invariant crcTable[..] == CrcTable()
        invariant Flatten(parts) == LocalSection(entries[..i])
        invariant offset == Offset(entries, i)
        invariant centralDirectory == CentralRecords(entries)[..i]
      {
        var header, cd := EncodeEntry(crcTable, entries, i, offset);
        FlattenAppendPair(parts, header, entries[i].data);
        parts := parts + [header] + [entries[i].data];
        centralDirectory := centralDirectory + [cd];

        EntryStep(entries, i);
        offset := offset + |header| + |entries[i].data|;
      }
      assert entries[..|entries|] == entries;
      assert centralDirectory == CentralRecords(entries);
      var localParts := parts;

      var cdStart := offset;
      var cdLen;
      parts, cdLen := PushDirectory(parts, centralDirectory);
      FlattenConcat(localParts, centralDirectory);
      assert Flatten(parts) == LocalSection(entries) + CentralSection(entries);
      assert cdLen == |CentralSection(entries)| && cdStart == |LocalSection(entries)|;

      var eocd := WriteEndRecord(|entries|, cdLen, cdStart);
      FlattenAppend(parts, eocd);
      parts := parts + [eocd];

      zip := Concat(parts);
    }
  }
}
