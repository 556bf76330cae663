# Knowledge-base bundle: a stored ZIP writer and a one-page PDF writer

The supply-chain control tower's web UI can download its knowledge base as
one ZIP file. That file holds twelve fixed documents, each a one-page PDF. No
library is involved: two hand-written encoders produce the bytes.

- `SimpleZip` collects `(name, bytes)` entries and writes them as a "stored"
  (uncompressed) ZIP archive, following PKWARE APPNOTE.TXT:
  - a local file header (section 4.3.7) and the raw data for each entry;
  - a central directory header (section 4.3.12) for each entry;
  - the end of central directory record (section 4.3.16).
  The CRC-32 of each entry is computed with a 256-entry table
  (section 4.4.7).
- `SimplePDF` turns a title and a text into a PDF file (ISO 32000-1) with
  five objects:
  - the catalog, the page tree, a Helvetica font, the content stream and
    the page;
  - then the cross-reference table (section 7.5.4) and the trailer
    (section 7.5.5).
  The text is word-wrapped at 85 characters into `Tj`/`T*` operators, and
  literal strings are escaped as section 7.3.4.2 requires.
- `generateKnowledgeDocs` builds each document's body from an optional
  subtitle, an optional contract id and the content. It renders the body
  with a fresh `SimplePDF`, adds the bytes to one `SimpleZip` under the
  document's file name, and generates the archive.

The Dafny model follows the source's form:
- `SimpleZip` and `SimplePDF` are classes whose fields the methods update.
- `generate`, `createPDF`, `formatTextStream` and the loop of
  `generateKnowledgeDocs` are methods with loops.
- Each method is proved equal to a specification function. These are:
  - `ZipFormat.ArchiveImage` for the archive;
  - `PdfFormat.PdfBuffer` and `PdfFormat.PdfString` for the PDF;
  - `PdfText.StreamText` for the content stream;
  - `KnowledgeDocs.BundleEntries` for the bundle.
- The properties the formats promise are lemmas about those functions:
  field positions, offsets, lengths, round trips and the wrap rules.

Modules, one per file:

| file | module | contents |
|---|---|---|
| common.dfy | Common | bytes, little-endian fields, the char-to-byte store, concatenation of buffers |
| bitwise.dfy | Bitwise | exclusive-or and shifts on unsigned numbers |
| crc32.dfy | Crc32 | the bit-at-a-time CRC-32, the table, and the table-driven loop |
| zip_format.dfy | ZipFormat | the archive image and its layout lemmas |
| simple_zip.dfy | SimpleZipWriter | class `SimpleZip` and the steps of `generate` |
| pdf_text.dfy | PdfText | `trim`, `split`, `replace`, `join`, escaping, the word wrap, the content stream |
| pdf_format.dfy | PdfFormat | decimal numbers, the objects, offsets, cross-reference table and trailer |
| simple_pdf.dfy | SimplePdfWriter | class `SimplePDF` |
| knowledge_docs.dfy | KnowledgeDocs | the catalog, the body assembly and the bundle loop |

All paths below are under `scct_unified/ui/src/utils/`, written out in full.

## Model

| member | source | states |
|---|---|---|
| Common.LittleEndian | scct_unified/ui/src/utils/simpleZip.ts:16-21 | the field written for a number has exactly `width` bytes (2 for `write2`, 4 for `write4`) |
| Common.LittleEndianAt | scct_unified/ui/src/utils/simpleZip.ts:16-21 | byte k of the field is n / 256^k mod 256, which is `(num >> 8k) & 0xff` |
| Common.DecodeLittleEndian | scct_unified/ui/src/utils/simpleZip.ts:16-21 | reading the field back as a little-endian number gives n mod 256^width: n mod 2^16 for `write2`, n mod 2^32 for `write4` |
| Common.DecodeLittleEndianFits | scct_unified/ui/src/utils/simpleZip.ts:16-21 | a number that fits the field reads back unchanged |
| Common.Latin1 | scct_unified/ui/src/utils/simpleZip.ts:22-26 | a string stored into a `Uint8Array` gives one byte per character, each the character code mod 256 |
| Common.StoreChars | scct_unified/ui/src/utils/simpleZip.ts:22-26 | `writeStr` (and the last loop of `createPDF`) returns a fresh array holding exactly the stored bytes of the string |
| Common.Latin1Injective | scct_unified/ui/src/utils/simpleZip.ts:22-26 | two strings of one-byte characters that store to the same bytes are equal |
| Crc32.CrcTable | scct_unified/ui/src/utils/simpleZip.ts:29-34 | the table has 256 entries, and entry i is i after eight single-bit shifts with polynomial 0xEDB88320 |
| Crc32.BuildCrcTable | scct_unified/ui/src/utils/simpleZip.ts:29-34 | the nested loops fill a fresh array equal to the table |
| Crc32.StepBound | scct_unified/ui/src/utils/simpleZip.ts:32 | a shift keeps a 32-bit register within 32 bits |
| Crc32.TableStep | scct_unified/ui/src/utils/simpleZip.ts:37 | one table lookup, `(crc >>> 8) ^ crcTable[(crc ^ byte) & 0xFF]`, equals eight single-bit shifts of the register with the byte folded into its low bits |
| Crc32.ComputeCrc32 | scct_unified/ui/src/utils/simpleZip.ts:35-39 | the table-driven `crc32` loop returns the bit-at-a-time reflected CRC-32 (initial register 0xFFFFFFFF, final exclusive-or 0xFFFFFFFF) of the data |
| Crc32.RegisterBound | scct_unified/ui/src/utils/simpleZip.ts:36-37 | the register stays below 2^32 for any data |
| Crc32.CrcBound | scct_unified/ui/src/utils/simpleZip.ts:38 | the CRC is an unsigned 32-bit number |
| Crc32.CrcOfNothing | scct_unified/ui/src/utils/simpleZip.ts:35-39 | the CRC of empty data is 0 |
| ZipFormat.Fields | scct_unified/ui/src/utils/simpleZip.ts:48-58 | a run of fields is as long as the sum of their widths |
| ZipFormat.FieldAt | scct_unified/ui/src/utils/simpleZip.ts:48-58 | field k of a run holds its value little-endian, at the position where the fields before it end |
| ZipFormat.LocalHeaderLayout | scct_unified/ui/src/utils/simpleZip.ts:48-59 | the local header is 30 + name length bytes. It holds signature 0x04034b50 at 0, version 20 at 4, flags and method 0 at 6 and 8, time/date 0 at 10, CRC at 14, the data length at 18 and 22, the name length at 26, 0 at 28, and the name from 30 |
| ZipFormat.CentralRecordLayout | scct_unified/ui/src/utils/simpleZip.ts:66-83 | the central header is 46 + name length bytes. It holds signature 0x02014b50 at 0, versions 20 at 4 and 6, zeros at 8 to 15, CRC at 16, the data length at 20 and 24, the name length at 28, zeros at 30 to 41, the local-header offset at 42, and the name from 46 |
| ZipFormat.EndRecordLayout | scct_unified/ui/src/utils/simpleZip.ts:99-107 | the end record is 22 bytes. It holds signature 0x06054b50 at 0, zeros at 4 and 6, the entry count at 8 and 10, the directory length at 12, the directory start at 16 and 0 at 20 |
| ZipFormat.HeadersAgree | scct_unified/ui/src/utils/simpleZip.ts:54-59 | entry i's central header repeats its local header's CRC, both sizes, name length and name, and holds the local header's offset at 42 |
| ZipFormat.LocalSectionStep | scct_unified/ui/src/utils/simpleZip.ts:61-62 | one more entry appends its local header and then its data to the local section |
| ZipFormat.EntryStep | scct_unified/ui/src/utils/simpleZip.ts:61-87 | one pass of the per-file loop extends the local section by the header and the data, moves `offset` on by `header.length + len`, and appends the entry's central header |
| ZipFormat.LocalBlockAt | scct_unified/ui/src/utils/simpleZip.ts:61-62 | entry i's local header, followed immediately by its data, sits at Offset(es, i) |
| ZipFormat.OffsetIsLocalSize | scct_unified/ui/src/utils/simpleZip.ts:82-87 | the offset stored for entry i is the sum of 30 + name length + data length over the entries before it |
| ZipFormat.LocalSectionSize | scct_unified/ui/src/utils/simpleZip.ts:87-90 | `cdStart`, the local section length, is the sum of 30 + name length + data length over all entries |
| ZipFormat.CentralSectionSize | scct_unified/ui/src/utils/simpleZip.ts:90-95 | `cdLen` is the sum of 46 + name length over all entries |
| ZipFormat.CentralRecordsPrefix | scct_unified/ui/src/utils/simpleZip.ts:66-85 | the central headers of the first j entries do not depend on later entries |
| ZipFormat.ArchiveSize | scct_unified/ui/src/utils/simpleZip.ts:99-120 | the archive is cdStart + cdLen + 22 bytes long |
| ZipFormat.EmptyArchive | scct_unified/ui/src/utils/simpleZip.ts:99-120 | with no entries the archive is exactly the end record with zero entries, zero length and offset 0 |
| ZipFormat.LocalSectionFirst | scct_unified/ui/src/utils/simpleZip.ts:109-118 | the archive starts with the local section |
| ZipFormat.CentralSectionNext | scct_unified/ui/src/utils/simpleZip.ts:90-95 | the central directory starts at `cdStart` in the archive |
| ZipFormat.CentralRecordAt | scct_unified/ui/src/utils/simpleZip.ts:92-95 | entry i's central header sits in the directory right after the headers before it |
| ZipFormat.EndRecordInArchive | scct_unified/ui/src/utils/simpleZip.ts:99-109 | the last 22 bytes of the archive are the end record with the count, `cdLen` and `cdStart` |
| SimpleZipWriter.Put | scct_unified/ui/src/utils/simpleZip.ts:49-59 | `set(src, at)` copies src to position `at` and leaves the other bytes unchanged |
| SimpleZipWriter.Zeros | scct_unified/ui/src/utils/simpleZip.ts:48 | a new `Uint8Array` has n bytes, all zero |
| SimpleZipWriter.SetField | scct_unified/ui/src/utils/simpleZip.ts:49-58 | a `set` of field k's bytes at its position extends the filled fields by one and keeps the length |
| SimpleZipWriter.SetTail | scct_unified/ui/src/utils/simpleZip.ts:59 | setting the name after the last field gives the fields followed by the name |
| SimpleZipWriter.WriteLocalHeader | scct_unified/ui/src/utils/simpleZip.ts:48-59 | the header filled field by field equals the specified local header |
| SimpleZipWriter.WriteCentralRecord | scct_unified/ui/src/utils/simpleZip.ts:66-83 | the record filled field by field equals the specified central header |
| SimpleZipWriter.WriteEndRecord | scct_unified/ui/src/utils/simpleZip.ts:99-107 | the end record filled field by field equals the specified end record |
| SimpleZipWriter.TotalLength | scct_unified/ui/src/utils/simpleZip.ts:112 | the `reduce` over part lengths is the length of the parts laid end to end |
| SimpleZipWriter.Concat | scct_unified/ui/src/utils/simpleZip.ts:112-118 | the final copy loop returns a fresh array holding the parts one after another |
| SimpleZipWriter.EncodeEntry | scct_unified/ui/src/utils/simpleZip.ts:41-85 | the per-file loop body yields the entry's local header and its central header, pointing at `offset` |
| SimpleZipWriter.PushDirectory | scct_unified/ui/src/utils/simpleZip.ts:90-95 | the second loop appends every central header to the parts, and `cdLen` is their total length |
| SimpleZipWriter.SimpleZip.constructor | scct_unified/ui/src/utils/simpleZip.ts:2-4 | a new archive has no entries |
| SimpleZipWriter.SimpleZip.AddFile | scct_unified/ui/src/utils/simpleZip.ts:6-8 | `addFile` appends one entry, and earlier entries keep their order |
| SimpleZipWriter.SimpleZip.Generate | scct_unified/ui/src/utils/simpleZip.ts:10-121 | `generate` returns a fresh array equal to the archive image of `files` and changes no field, so a second call gives the same bytes |
| PdfText.TrimStart | scct_unified/ui/src/utils/simplePdf.ts:112 | the result is a suffix of s; every character cut off is white space, and the result does not start with white space |
| PdfText.TrimEnd | scct_unified/ui/src/utils/simplePdf.ts:112 | the result is a prefix of s; every character cut off is white space, and the result does not end with white space |
| PdfText.Trim | scct_unified/ui/src/utils/simplePdf.ts:112 | neither end of `s.trim()` is white space |
| PdfText.TrimSlice | scct_unified/ui/src/utils/simplePdf.ts:112 | `s.trim()` is a slice s[i..j] with nothing but white space before i and after j |
| PdfText.TrimBlank | scct_unified/ui/src/utils/simplePdf.ts:112-115 | `!line.trim()` holds if and only if every character of the line is white space |
| PdfText.Split | scct_unified/ui/src/utils/simplePdf.ts:110 | `split` returns at least one piece, and no piece contains the separator |
| PdfText.SplitJoin | scct_unified/ui/src/utils/simplePdf.ts:110 | joining the pieces of a split with the separator gives the string back |
| PdfText.JoinSplit | scct_unified/ui/src/utils/simplePdf.ts:118 | splitting the join of separator-free pieces gives the pieces back |
| PdfText.SplitPrefix | scct_unified/ui/src/utils/simplePdf.ts:118 | a separator-free front of the string becomes the front of the first piece |
| PdfText.ReplaceAll | scct_unified/ui/src/utils/simplePdf.ts:141 | after a global replacement by a text without c, the result has no c |
| PdfText.ReplaceAllIsSplitJoin | scct_unified/ui/src/utils/simplePdf.ts:141 | replacing every c is splitting at c and joining with the replacement |
| PdfText.ReplaceAllIdentity | scct_unified/ui/src/utils/simplePdf.ts:141 | replacing c by itself leaves the string unchanged |
| PdfText.ReplaceAllConcat | scct_unified/ui/src/utils/simplePdf.ts:141 | a global replacement of a + b is the replacement of a followed by that of b |
| PdfText.EscapeConcat | scct_unified/ui/src/utils/simplePdf.ts:140-142 | escaping a + b is escaping a, then b |
| PdfText.EscapeOne | scct_unified/ui/src/utils/simplePdf.ts:140-142 | a single backslash becomes two, a parenthesis gets a backslash, any other character stays |
| PdfText.EscapeIsPerChar | scct_unified/ui/src/utils/simplePdf.ts:140-142 | the three chained replacements escape each character on its own |
| PdfText.EscapeLength | scct_unified/ui/src/utils/simplePdf.ts:140-142 | escaping adds exactly one character per backslash and parenthesis |
| PdfText.ReadEscaped | scct_unified/ui/src/utils/simplePdf.ts:140-142 | a literal-string reader reads the escaped text back as the original, up to the first unescaped `)` |
| PdfText.ShowReadsBack | scct_unified/ui/src/utils/simplePdf.ts:103 | `(${escape(s)}) Tj` opens a literal string, and a reader recovers exactly s, followed by ` Tj` |
| PdfText.Spaced | scct_unified/ui/src/utils/simplePdf.ts:125-127 | `currentLine`, the words each followed by a space, is at least one character per word |
| PdfText.SpacedAppend | scct_unified/ui/src/utils/simplePdf.ts:127 | adding a word to the line appends the word and a space |
| PdfText.Wrap | scct_unified/ui/src/utils/simplePdf.ts:119-129 | once any word has been seen, the current line holds a word |
| PdfText.WrapKeepsWords | scct_unified/ui/src/utils/simplePdf.ts:121-129 | the wrapped lines hold every word of the line, once each and in the original order |
| PdfText.WrapGroupsNonEmpty | scct_unified/ui/src/utils/simplePdf.ts:121-129 | every wrapped line after the first holds a word. The first one is empty if and only if the first word alone is longer than 85, in which case `()` is shown first |
| PdfText.WrapWidth | scct_unified/ui/src/utils/simplePdf.ts:122-127 | every wrapped line with its trailing space is at most 86 characters, unless it is a single word |
| PdfText.WrapShownWidth | scct_unified/ui/src/utils/simplePdf.ts:122-131 | every piece shown, once trimmed, is at most 85 characters long unless it is a single word |
| PdfText.WrapGreedy | scct_unified/ui/src/utils/simplePdf.ts:122-125 | the wrap is greedy: the first word of each line would have pushed the line before it past 85 characters |
| PdfText.WrapPrefix | scct_unified/ui/src/utils/simplePdf.ts:121 | wrapping one more word is one more step of the wrap |
| PdfText.WrapBreaks | scct_unified/ui/src/utils/simplePdf.ts:122-125 | a word that does not fit shows the current line, then `T*`, and starts the next line with itself and a space |
| PdfText.WrapFits | scct_unified/ui/src/utils/simplePdf.ts:126-127 | a word that fits is appended to the current line with a space, and nothing is shown |
| PdfText.PushGroups | scct_unified/ui/src/utils/simplePdf.ts:123-124 | showing the lines pushes exactly two operators per line |
| PdfText.PushGroupsAppend | scct_unified/ui/src/utils/simplePdf.ts:123-124 | one more line pushes its `Tj` and a `T*` |
| PdfText.PushGroupsFront | scct_unified/ui/src/utils/simplePdf.ts:123-124 | showing lines only appends, so the operators already there stay |
| PdfText.NonBlankLine | scct_unified/ui/src/utils/simplePdf.ts:117-133 | for a non-blank line the `if (currentLine)` test always passes: every wrapped line is shown, with two operators each, and the line's operators end with the last line's `Tj` and then `T*` |
| PdfText.BlankLine | scct_unified/ui/src/utils/simplePdf.ts:112-115 | a line of white space alone pushes exactly `T* T*` and no `Tj` |
| PdfText.PushLineFront | scct_unified/ui/src/utils/simplePdf.ts:111-134 | a body line only appends operators |
| PdfText.PushLinesFront | scct_unified/ui/src/utils/simplePdf.ts:111-134 | the body loop only appends operators after the header ones |
| PdfText.PushLinesAppend | scct_unified/ui/src/utils/simplePdf.ts:111 | one more body line is handled after the lines before it |
| PdfText.HeaderOps | scct_unified/ui/src/utils/simplePdf.ts:98-108 | the stream opens with seven operators |
| PdfText.WrapWords | scct_unified/ui/src/utils/simplePdf.ts:118-129 | the word loop pushes the completed lines and leaves the last line's words in `currentLine` |
| PdfText.WrapLine | scct_unified/ui/src/utils/simplePdf.ts:117-133 | a non-blank line pushes its wrapped lines, the last one included |
| PdfText.PushBody | scct_unified/ui/src/utils/simplePdf.ts:110-134 | the line loop pushes the operators of every body line, in order |
| PdfText.FormatTextStream | scct_unified/ui/src/utils/simplePdf.ts:96-138 | `formatTextStream` returns the header operators, the body lines' operators and `ET`, joined by newlines |
| PdfText.StreamFrame | scct_unified/ui/src/utils/simplePdf.ts:98-108 | whatever the body, the operators start with `BT`, `/F1 18 Tf`, `50 750 Td`, the escaped title `Tj`, `/F1 11 Tf`, `0 -24 Td`, `14 TL`, and end with `ET` |
| PdfText.OpsFrame | scct_unified/ui/src/utils/simplePdf.ts:136 | the body comes after the header operators and is followed by `ET` |
| PdfFormat.NatStr | scct_unified/ui/src/utils/simplePdf.ts:65-75 | `${n}` is a non-empty string of decimal digits |
| PdfFormat.NatStrRoundTrip | scct_unified/ui/src/utils/simplePdf.ts:65-75 | reading the digits of n gives n |
| PdfFormat.NatStrInjective | scct_unified/ui/src/utils/simplePdf.ts:65-75 | distinct numbers are written differently |
| PdfFormat.NatStrCanonical | scct_unified/ui/src/utils/simplePdf.ts:65-75 | the digits have no leading zero |
| PdfFormat.NatStrLength | scct_unified/ui/src/utils/simplePdf.ts:69 | a number below 10^k has at most k digits |
| PdfFormat.PadStart | scct_unified/ui/src/utils/simplePdf.ts:69 | `padStart(width, c)` ends with s, is padded with c in front, and has length max(|s|, width) |
| PdfFormat.ParseLeadingZeros | scct_unified/ui/src/utils/simplePdf.ts:69 | leading zeros do not change the number read |
| PdfFormat.PaddedRoundTrip | scct_unified/ui/src/utils/simplePdf.ts:69 | a zero-padded offset reads back as the offset |
| PdfFormat.XrefEntryFormat | scct_unified/ui/src/utils/simplePdf.ts:66-70 | every table line is 20 characters, the free entry included. For an offset below 10^10, the first ten digits read back as the offset and ` 00000 n \n` follows |
| PdfFormat.KidRefs | scct_unified/ui/src/utils/simplePdf.ts:50 | one `${pid} 0 R` reference per page |
| PdfFormat.OnePage | scct_unified/ui/src/utils/simplePdf.ts:40-51 | the page tree lists the single page, object 5, and counts 1 |
| PdfFormat.Contents | scct_unified/ui/src/utils/simplePdf.ts:47-60 | there are five object contents: catalog, page tree, font, content stream and page |
| PdfFormat.Body | scct_unified/ui/src/utils/simplePdf.ts:21-60 | the header, then object k written as `k 0 obj` with its content, for k from 1 to 5 |
| PdfFormat.Offsets | scct_unified/ui/src/utils/simplePdf.ts:87-94 | offset k is the length of the header and the objects written before object k + 1 |
| PdfFormat.XrefEntries | scct_unified/ui/src/utils/simplePdf.ts:68-70 | one in-use line per recorded offset, in order |
| PdfFormat.XrefParts | scct_unified/ui/src/utils/simplePdf.ts:64-70 | the table is three lines (`xref`, the subsection line, the free entry) plus one line per offset |
| PdfFormat.TrailerParts | scct_unified/ui/src/utils/simplePdf.ts:72-76 | the trailer is five parts |
| PdfFormat.Buffer | scct_unified/ui/src/utils/simplePdf.ts:21-76 | the buffer has 19 parts |
| PdfFormat.BufferParts | scct_unified/ui/src/utils/simplePdf.ts:64-76 | the buffer holds the body, `xref`, the subsection line, the free entry, the five in-use lines, `trailer`, the trailer dictionary, `startxref`, the offset of `xref` and `%%EOF`, at fixed indices |
| PdfFormat.ObjHeaderStarts | scct_unified/ui/src/utils/simplePdf.ts:89 | an object's text starts with `id 0 obj` |
| PdfFormat.ObjectAtOffset | scct_unified/ui/src/utils/simplePdf.ts:87-89 | for k = 0..4, the file text at `xrefOffsets[k]` is `k+1 0 obj`, whatever the object contents |
| PdfFormat.OffsetsIncrease | scct_unified/ui/src/utils/simplePdf.ts:21-60 | the first offset is 15, the length of the header, and the offsets strictly increase |
| PdfFormat.XrefAtStart | scct_unified/ui/src/utils/simplePdf.ts:63-75 | the number after `startxref` reads back as the position of the `xref` keyword in the file |
| PdfFormat.HeaderAndEof | scct_unified/ui/src/utils/simplePdf.ts:21-76 | the file starts with the 15-character header and ends with `%%EOF\n` |
| PdfFormat.StreamInObject | scct_unified/ui/src/utils/simplePdf.ts:36 | the content object holds the stream right after its dictionary, followed by `\nendstream` |
| PdfFormat.StreamLength | scct_unified/ui/src/utils/simplePdf.ts:34-36 | `/Length` reads back as the stream's character count, which equals its byte count once stored |
| PdfFormat.CountOneLines | scct_unified/ui/src/utils/simplePdf.ts:65-73 | with no registered objects the subsection line is `0 1` and the trailer says `/Size 1` |
| PdfFormat.XrefCountIsOne | scct_unified/ui/src/utils/simplePdf.ts:65-73 | `objects` stays empty, so the subsection line says 1 and `/Size` is 1, while six table lines follow: the free entry and the five in-use lines |
| SimplePdfWriter.JoinIsFlatten | scct_unified/ui/src/utils/simplePdf.ts:79 | `join("")` is the parts one after another |
| SimplePdfWriter.WriteStep | scct_unified/ui/src/utils/simplePdf.ts:87-90 | writing object k + 1 extends the written body and the recorded offsets by one each |
| SimplePdfWriter.PushXrefEntries | scct_unified/ui/src/utils/simplePdf.ts:68-70 | the loop appends one table line per recorded offset, in order |
| SimplePdfWriter.SimplePDF.constructor | scct_unified/ui/src/utils/simplePdf.ts:2-7 | all four lists start empty |
| SimplePdfWriter.SimplePDF.AddObject | scct_unified/ui/src/utils/simplePdf.ts:9-12 | appends the content and returns its 1-based id; nothing else changes |
| SimplePdfWriter.SimplePDF.CurrentOffset | scct_unified/ui/src/utils/simplePdf.ts:92-94 | the offset is the length of the text written so far |
| SimplePdfWriter.SimplePDF.WriteObj | scct_unified/ui/src/utils/simplePdf.ts:87-90 | records the length written so far as the object's offset, then appends the object text |
| SimplePdfWriter.SimplePDF.CreatePDF | scct_unified/ui/src/utils/simplePdf.ts:14-85 | returns fresh bytes equal to the stored file text for (title, text), which depends on nothing else because the fields are reset first. Afterwards `objects` is empty, `pages` is [5], and `buffer` and `xrefOffsets` are those of the file |
| SimplePdfWriter.SimplePDF.WriteDocument | scct_unified/ui/src/utils/simplePdf.ts:15-84 | with the stream formatted, the reset fields are filled with the header, five objects, the table and the trailer, and the text is stored as bytes |
| SimplePdfWriter.SimplePDF.WriteObjects | scct_unified/ui/src/utils/simplePdf.ts:46-60 | the five `writeObj` calls leave the body in the buffer and its offsets in `xrefOffsets` |
| SimplePdfWriter.SimplePDF.WriteXrefAndTrailer | scct_unified/ui/src/utils/simplePdf.ts:63-76 | after the body come the table and the trailer, with `startxref` at the body's length and the count taken from `objects` |
| KnowledgeDocs.FullContentOrder | scct_unified/ui/src/utils/pdfGenerator.ts:196-199 | the body is the subtitle and a blank line (if there is a subtitle), then `CONTRACT ID: ` and the id (if there is one), then the content |
| KnowledgeDocs.BundleEntries | scct_unified/ui/src/utils/pdfGenerator.ts:193-203 | one archive entry per document |
| KnowledgeDocs.BundleStep | scct_unified/ui/src/utils/pdfGenerator.ts:193-203 | one more document appends exactly its entry |
| KnowledgeDocs.BundleEntryAt | scct_unified/ui/src/utils/pdfGenerator.ts:193-203 | entry i is named by document i's file name and holds the PDF of its title and assembled body |
| KnowledgeDocs.BundleNames | scct_unified/ui/src/utils/pdfGenerator.ts:202 | the entries are named after the documents, in catalog order |
| KnowledgeDocs.Catalog | scct_unified/ui/src/utils/pdfGenerator.ts:12-188 | the catalog has twelve definitions |
| KnowledgeDocs.DistinctFilenames | scct_unified/ui/src/utils/pdfGenerator.ts:12-188 | no two catalog definitions share a file name, whatever their body texts |
| KnowledgeDocs.BundleNamesDistinct | scct_unified/ui/src/utils/pdfGenerator.ts:12-202 | the archive of the catalog has no two entries with the same name |
| KnowledgeDocs.RenderDocument | scct_unified/ui/src/utils/pdfGenerator.ts:194-201 | a fresh `SimplePDF` renders the document's title and assembled body. The bytes depend on the document alone, so no state carries over between documents |
| KnowledgeDocs.AddDocument | scct_unified/ui/src/utils/pdfGenerator.ts:201-202 | the archive gets exactly one more entry: the file name and the document's PDF |
| KnowledgeDocs.BundleDocuments | scct_unified/ui/src/utils/pdfGenerator.ts:191-205 | every document is added in order, then the archive is generated once. The result is the archive image of one entry per document |
| KnowledgeDocs.GenerateKnowledgeDocs | scct_unified/ui/src/utils/pdfGenerator.ts:190-205 | `generateKnowledgeDocs` returns the archive of the twelve catalog documents, in catalog order |

## Left out

- The `Blob` and the `async` wrapper of `generateKnowledgeDocs` (pdfGenerator.ts:190, :206) are browser calls. The model ends at the bytes `zip.generate()` returns.
- `currentOffset` re-joins the whole buffer each time. The model measures the same length, `|Flatten(buffer)|`, without the quadratic cost.
- Strings are sequences of Unicode scalar values, while JavaScript strings are UTF-16 code units. For characters outside the Basic Multilingual Plane, `.length`, `charCodeAt` and the stored bytes would differ. The catalog texts contain none: their only non-ASCII characters are `°` and `€`.
- `ZipFormat.Entry` holds the data as a value. The source keeps references to `Uint8Array`s that nobody changes after `addFile`, so aliasing is not modelled.
- `generate` and `createPDF` are split into helper methods: `EncodeEntry`, `PushDirectory`, `Concat`, and `WriteDocument`, `WriteObjects`, `WriteXrefAndTrailer`. Each keeps the statements of the source in their order.
  - The headers are filled as sequences rather than arrays. Each `.set` is a `SetField` call that replaces the same bytes.
- `SimplePdfWriter.SimplePDF.CreatePDF` formats the content stream before it resets the fields, where the source resets first (simplePdf.ts:15-18, :34). `formatTextStream` reads and writes no field, so the result is the same.
- The CRC register and table entries are unbounded naturals kept below 2^32. The source's signed 32-bit intermediates (`0 ^ (-1)`, `^`) have the same bit patterns, and `>>> 0` makes the result unsigned.
- `PdfText.ReadLiteral` reads only the escapes `escape` produces (`\\`, `\(` and `\)`). It is a partner for the round trip, not a full PDF string reader.
- `KnowledgeDocs.Catalog` takes the twelve body texts as a parameter, and `KnowledgeDocs.Documents` applies it to the texts of `DOCUMENTS`. Longer literals are written as pieces joined by `+`, which is the same string. The distinctness lemmas therefore hold for any body texts.
- `PdfFormat.XrefEntryFormat` requires the offset to be below 10^10, as section 7.5.4 of ISO 32000-1 assumes. Larger offsets would give entries wider than 20 characters.
- The rest of the repository is not part of this model:
  - the Gemini, document and data generator services;
  - the colour utilities;
  - the React components and browser state;
  - the static constants and scenario data;
  - the Python services.
