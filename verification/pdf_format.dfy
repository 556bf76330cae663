/** The text of the one-page PDF file `createPDF` writes: decimal numbers,
    the five indirect objects, the cross-reference table (section 7.5.4 of
    ISO 32000-1) and the trailer, and where each part lands in the file. */
module PdfFormat {
  import opened Common
  import opened PdfText

  /** 10^k. */
  function Pow10(k: nat): (r: nat)
    ensures r >= 1
  {
    if k == 0 then 1 else 10 * Pow10(k - 1)
  }

  function DigitChar(d: nat): char
    requires d < 10
  {
    (48 + d) as char
  }

  /** The value of a decimal digit (0 for any other character). */
  function DigitValue(c: char): nat
  {
    if '0' <= c <= '9' then c as int - 48 else 0
  }

  predicate IsDigits(s: string)
  {
    forall k :: 0 <= k < |s| ==> '0' <= s[k] <= '9'
  }

  /** `n.toString()`, and `${n}` in a template: the decimal digits of n. */
  function NatStr(n: nat): (r: string)
    ensures |r| >= 1 && IsDigits(r)
    decreases n
  {
    if n < 10 then [DigitChar(n)] else NatStr(n / 10) + [DigitChar(n % 10)]
  }

  /** The number a reader makes of a string of decimal digits. */
  function ParseNat(s: string): nat
  {
    if s == [] then 0 else 10 * ParseNat(s[..|s| - 1]) + DigitValue(s[|s| - 1])
  }

  lemma ParseNatAppend(s: string, c: char)
    ensures ParseNat(s + [c]) == 10 * ParseNat(s) + DigitValue(c)
  {
    assert (s + [c])[..|s|] == s;
  }

  /** Reading the digits of n gives n back. */
  lemma {:induction false} NatStrRoundTrip(n: nat)
    ensures ParseNat(NatStr(n)) == n
    decreases n
  {
    if n >= 10 {
      NatStrRoundTrip(n / 10);
      ParseNatAppend(NatStr(n / 10), DigitChar(n % 10));
    }
  }

  /** Distinct numbers are written differently. */
  lemma NatStrInjective(a: nat, b: nat)
    requires NatStr(a) == NatStr(b)
    ensures a == b
  {
    NatStrRoundTrip(a);
    NatStrRoundTrip(b);
  }

  /** The digits have no leading zero. */
  lemma {:induction false} NatStrCanonical(n: nat)
    ensures |NatStr(n)| > 1 ==> NatStr(n)[0] != '0'
    decreases n
  {
    if n >= 10 {
      NatStrCanonical(n / 10);
    }
  }

  /** A number below 10^k has at most k digits. */
  lemma {:induction false} NatStrLength(n: nat, k: nat)
    requires 1 <= k && n < Pow10(k)
    ensures |NatStr(n)| <= k
    decreases k
  {
    if n >= 10 {
      NatStrLength(n / 10, k - 1);
    }
  }

  /** n copies of c. */
  function Repeat(c: char, n: nat): (r: string)
    ensures |r| == n && forall k :: 0 <= k < n ==> r[k] == c
  {
    if n == 0 then [] else Repeat(c, n - 1) + [c]
  }

  /** `s.padStart(width, c)` for a one-character pad: s with copies of c in
      front, up to the width; s unchanged when it is already as wide. */
  function PadStart(s: string, width: nat, c: char): (r: string)
    ensures |r| == if |s| >= width then |s| else width
    ensures r[|r| - |s|..] == s
    ensures forall k :: 0 <= k < |r| - |s| ==> r[k] == c
  {
    if |s| >= width then s else Repeat(c, width - |s|) + s
  }

  lemma {:induction false} ParseZeros(n: nat)
    ensures ParseNat(Repeat('0', n)) == 0
  {
    if n > 0 {
      ParseZeros(n - 1);
      ParseNatAppend(Repeat('0', n - 1), '0');
    }
  }

  /** Leading zeros do not change the number read. */
  lemma {:induction false} ParseLeadingZeros(k: nat, s: string)
    ensures ParseNat(Repeat('0', k) + s) == ParseNat(s)
    decreases |s|
  {
    var z := Repeat('0', k);
    if s == [] {
      assert z + s == z;
      ParseZeros(k);
    } else {
      var s', c := s[..|s| - 1], s[|s| - 1];
      assert z + s == (z + s') + [c];
      assert s == s' + [c];
      ParseNatAppend(z + s', c);
      ParseNatAppend(s', c);
      ParseLeadingZeros(k, s');
    }
  }

  /** Padding with zeros keeps the number. */
  lemma PaddedRoundTrip(n: nat, width: nat)
    ensures ParseNat(PadStart(NatStr(n), width, '0')) == n
  {
    var digits := NatStr(n);
    NatStrRoundTrip(n);
    if |digits| < width {
      assert PadStart(digits, width, '0') == Repeat('0', width - |digits|) + digits;
      ParseLeadingZeros(width - |digits|, digits);
    }
  }

  /** An in-use entry of the cross-reference table: the byte offset padded
      to ten digits, generation 00000, keyword n, and a two-character end
      of line. */
  function XrefEntry(offset: nat): string
  {
    PadStart(NatStr(offset), 10, '0') + " 00000 n \n"
  }

  /** The entry the table starts with: object 0, free, generation 65535. */
  const FreeEntry: string := "0000000000 65535 f \n"

  /** Every entry is 20 bytes long, as section 7.5.4 of ISO 32000-1 requires,
      and its first ten digits read back as the offset, for every file
      shorter than 10^10 bytes. */
  lemma XrefEntryFormat(offset: nat, p: nat)
    requires p == Pow10(10) && offset < p
    ensures |XrefEntry(offset)| == 20 && |FreeEntry| == 20
    ensures ParseNat(XrefEntry(offset)[..10]) == offset
    ensures XrefEntry(offset)[10..] == " 00000 n \n"
  {
    NatStrLength(offset, 10);
    PaddedRoundTrip(offset, 10);
    var pad := PadStart(NatStr(offset), 10, '0');
    assert XrefEntry(offset)[..10] == pad;
  }

  /** `${id} 0 obj\n${content}\nendobj\n`: object id, generation 0. */
  function ObjText(id: nat, content: string): string
  {
    ObjHeader(id) + content + "\nendobj\n"
  }

  /** The line an indirect object starts with. */
  function ObjHeader(id: nat): string
  {
    NatStr(id) + " 0 obj\n"
  }

  /** The file header: version 1.4 and a comment of four bytes above 127. */
  const Header: string := "%PDF-1.4\n%\U{00E2}\U{00E3}\U{00CF}\U{00D3}\n"

  const CatalogId: nat := 1
  const PageTreeId: nat := 2
  const FontId: nat := 3
  const ContentId: nat := 4
  const PageId: nat := 5

  /** The document catalog, pointing at the page tree. */
  function CatalogContent(): string
  {
    "<< /Type /Catalog /Pages " + NatStr(PageTreeId) + " 0 R >>"
  }

  /** `${pid} 0 R` for each page. */
  function KidRefs(pages: seq<nat>): (r: seq<string>)
    ensures |r| == |pages|
  {
    seq(|pages|, k requires 0 <= k < |pages| => NatStr(pages[k]) + " 0 R")
  }

  /** `[${this.pages.map(pid => `${pid} 0 R`).join(' ')}]`. */
  function KidsArray(pages: seq<nat>): string
  {
    "[" + Join(KidRefs(pages), " ") + "]"
  }

  /** The page tree: its kids and their count. */
  function PagesContent(pages: seq<nat>): string
  {
    "<< /Type /Pages /Kids " + KidsArray(pages) + " /Count " + NatStr(|pages|) + " >>"
  }

  /** Helvetica, one of the standard Type 1 fonts. */
  const FontContent: string := "<< /Type /Font /Subtype /Type1 /BaseFont /Helvetica >>"

  /** The content stream object: its length, then the stream. */
  function ContentObj(stream: string): string
  {
    StreamDict(stream) + stream + "\nendstream"
  }

  /** Everything of the content stream object before the stream data. */
  function StreamDict(stream: string): string
  {
    LengthKey + NatStr(|stream|) + " >>\nstream\n"
  }

  /** The start of the stream dictionary, up to the length value. */
  const LengthKey: string := "<< /Length "

  /** The three pieces of a + b + c, cut out again. */
  lemma ThreePieces(a: string, b: string, c: string)
    ensures (a + b + c)[..|a|] == a
    ensures (a + b + c)[|a|..|a| + |b|] == b
  {
    assert (a + b + c)[|a|..|a| + |b|] == (a + b + c)[|a|..][..|b|];
  }

  /** The page: parent, font resource F1, a US Letter media box and its
      content stream. */
  function PageContent(): string
  {
    "<< /Type /Page /Parent " + NatStr(PageTreeId) + " 0 R /Resources << /Font << /F1 "
    + NatStr(FontId) + " 0 R >> >> /MediaBox [0 0 612 792] /Contents " + NatStr(ContentId) + " 0 R >>"
  }

  /** The contents of objects 1 to 5, in the order they are written, for
      a page whose content stream object is `contentObj`. */
  function Contents(contentObj: string): (r: seq<string>)
    ensures |r| == 5
  {
    [CatalogContent(), PagesContent([PageId]), FontContent, contentObj, PageContent()]
  }

  /** The file header, then objects 1 to 5 with the given contents. */
  function Body(contents: seq<string>): (r: seq<string>)
    requires |contents| == 5
    ensures |r| == 6 && r[0] == Header
    ensures forall k :: 0 < k < 6 ==> r[k] == ObjText(k, contents[k - 1])
  {
    [Header] + seq(5, k requires 0 <= k < 5 => ObjText(k + 1, contents[k]))
  }

  /** The offsets `writeObj` records: object k + 1 starts after the header
      and the k objects before it. */
  function Offsets(body: seq<string>): (r: seq<nat>)
    requires |body| == 6
    ensures |r| == 5
    ensures forall k :: 0 <= k < 5 ==> r[k] == |Flatten(body[..k + 1])|
  {
    seq(5, k requires 0 <= k < 5 => |Flatten(body[..k + 1])|)
  }

  /** The in-use entries, one per recorded offset. */
  function XrefEntries(offsets: seq<nat>): (r: seq<string>)
    ensures |r| == |offsets|
    ensures forall k :: 0 <= k < |offsets| ==> r[k] == XrefEntry(offsets[k])
  {
    seq(|offsets|, k requires 0 <= k < |offsets| => XrefEntry(offsets[k]))
  }

  /** The first line of the cross-reference subsection: it starts at object
      0 and announces `objectCount + 1` entries. */
  function SubsectionLine(objectCount: nat): string
  {
    "0 " + NatStr(objectCount + 1) + "\n"
  }

  /** The trailer dictionary: the size `objectCount + 1` and the catalog as
      root. */
  function TrailerDict(objectCount: nat): string
  {
    "<< /Size " + NatStr(objectCount + 1) + " /Root " + NatStr(CatalogId) + " 0 R >>\n"
  }

  /** The cross-reference section: the subsection line, the free entry,
      then the in-use entries. */
  function XrefParts(objectCount: nat, offsets: seq<nat>): (r: seq<string>)
    ensures |r| == 3 + |offsets|
  {
    ["xref\n", SubsectionLine(objectCount), FreeEntry] + XrefEntries(offsets)
  }

  /** The trailer, the offset of the cross-reference section, and the end
      marker. */
  function TrailerParts(objectCount: nat, xrefStart: nat): (r: seq<string>)
    ensures |r| == 5
  {
    ["trailer\n", TrailerDict(objectCount), "startxref\n", NatStr(xrefStart) + "\n", "%%EOF\n"]
  }

  /** The buffer of a file whose body is `body`, with the object count
      taken as `objectCount`. */
  function Buffer(body: seq<string>, objectCount: nat): (r: seq<string>)
    requires |body| == 6
    ensures |r| == 19
  {
    body + XrefParts(objectCount, Offsets(body)) + TrailerParts(objectCount, |Flatten(body)|)
  }

  /** The parts of a buffer, one by one. */
  lemma BufferParts(body: seq<string>, objectCount: nat)
    requires |body| == 6
    ensures Buffer(body, objectCount)[..6] == body
    ensures Buffer(body, objectCount)[6] == "xref\n"
    ensures Buffer(body, objectCount)[7] == SubsectionLine(objectCount)
    ensures Buffer(body, objectCount)[8] == FreeEntry
    ensures forall k :: 0 <= k < 5 ==> Buffer(body, objectCount)[9 + k] == XrefEntry(Offsets(body)[k])
    ensures Buffer(body, objectCount)[14] == "trailer\n"
    ensures Buffer(body, objectCount)[15] == TrailerDict(objectCount)
    ensures Buffer(body, objectCount)[17] == NatStr(|Flatten(body)|) + "\n"
    ensures Buffer(body, objectCount)[18] == "%%EOF\n"
  {
  }

  /** The buffer `createPDF` fills: `objects` is emptied and never added
      to (`addObject` is never called), so the object count it writes is
      0. */
  function PdfBuffer(title: string, text: string): seq<string>
  {
    Buffer(Body(Contents(ContentObj(StreamText(title, text)))), 0)
  }

  /** The file as text: `buffer.join("")`. */
  function PdfString(title: string, text: string): string
  {
    Flatten(PdfBuffer(title, text))
  }

  lemma ObjHeaderStarts(id: nat, content: string)
    ensures |ObjHeader(id)| <= |ObjText(id, content)|
    ensures ObjText(id, content)[..|ObjHeader(id)|] == ObjHeader(id)
  {
  }

  /** A part that starts with p puts p at the part's offset. */
  lemma PartStartsWith(parts: seq<string>, j: nat, p: string)
    requires j < |parts| && |p| <= |parts[j]| && parts[j][..|p|] == p
    ensures var off := |Flatten(parts[..j])|;
      off + |p| <= |Flatten(parts)| && Flatten(parts)[off..off + |p|] == p
  {
    var off := |Flatten(parts[..j])|;
    FlattenPartAt(parts, j);
    SliceOfSlice(Flatten(parts), off, off + |parts[j]|, 0, |p|);
  }

  /** Each offset of the table points at the start of its object: the text
      found there is `${k + 1} 0 obj`, whatever the object contents. */
  lemma ObjectAtOffset(contents: seq<string>, objectCount: nat, k: nat)
    requires |contents| == 5 && k < 5
    ensures var s, off := Flatten(Buffer(Body(contents), objectCount)), Offsets(Body(contents))[k];
      off + |ObjHeader(k + 1)| <= |s| && s[off..off + |ObjHeader(k + 1)|] == ObjHeader(k + 1)
  {
    var body := Body(contents);
    var buffer := Buffer(body, objectCount);
    BufferParts(body, objectCount);
    assert buffer[..k + 1] == body[..k + 1];
    ObjHeaderStarts(k + 1, contents[k]);
    PartStartsWith(buffer, k + 1, ObjHeader(k + 1));
  }

  /** The objects follow one another: every offset is past the previous
      one, and the first is just after the 15-character header. */
  lemma OffsetsIncrease(contents: seq<string>)
    requires |contents| == 5
    ensures Offsets(Body(contents))[0] == |Header| == 15
    ensures forall k :: 0 < k < 5 ==> Offsets(Body(contents))[k - 1] < Offsets(Body(contents))[k]
  {
    var body := Body(contents);
    assert body[..1] == [] + [Header];
    FlattenAppend([], Header);
    forall k | 0 < k < 5
      ensures Offsets(body)[k - 1] < Offsets(body)[k]
    {
      assert body[..k + 1] == body[..k] + [body[k]];
      FlattenAppend(body[..k], body[k]);
      assert |body[k]| > 0;
    }
  }

  /** `startxref` is followed by the offset of the `xref` keyword. */
  lemma XrefAtStart(contents: seq<string>, objectCount: nat)
    requires |contents| == 5
    ensures var s, start := Flatten(Buffer(Body(contents), objectCount)), |Flatten(Body(contents))|;
      start + 5 <= |s| && s[start..start + 5] == "xref\n"
      && Buffer(Body(contents), objectCount)[17] == NatStr(start) + "\n"
      && ParseNat(NatStr(start)) == start
  {
    var body := Body(contents);
    var buffer := Buffer(body, objectCount);
    BufferParts(body, objectCount);
    FlattenPartAt(buffer, 6);
    NatStrRoundTrip(|Flatten(body)|);
  }

  /** The file starts with the header and ends with the end-of-file
      marker. */
  lemma HeaderAndEof(contents: seq<string>, objectCount: nat)
    requires |contents| == 5
    ensures var s := Flatten(Buffer(Body(contents), objectCount));
      |s| >= 15 && s[..15] == Header && s[|s| - 6..] == "%%EOF\n"
  {
    var buffer := Buffer(Body(contents), objectCount);
    BufferParts(Body(contents), objectCount);
    FlattenPartAt(buffer, 0);
    assert buffer[..0] == [];
    assert buffer == buffer[..18] + [buffer[18]];
    FlattenAppend(buffer[..18], buffer[18]);
  }

  /** The stream data sits between the dictionary and `endstream`. */
  lemma StreamInObject(stream: string)
    ensures var d := StreamDict(stream);
      ContentObj(stream)[|d|..|d| + |stream|] == stream
      && ContentObj(stream)[|d| + |stream|..] == "\nendstream"
  {
    ThreePieces(StreamDict(stream), stream, "\nendstream");
  }

  /** The `/Length` value reads back as the number of bytes of the
      stream. */
  lemma StreamLength(stream: string)
    ensures var n := NatStr(|stream|);
      ContentObj(stream)[..|LengthKey|] == LengthKey
      && ParseNat(ContentObj(stream)[|LengthKey|..|LengthKey| + |n|]) == |Latin1(stream)|
  {
    var n := NatStr(|stream|);
    var d := StreamDict(stream);
    var tail := stream + "\nendstream";
    assert ContentObj(stream) == d + tail;
    ThreePieces(LengthKey, n, " >>\nstream\n");
    SliceOfFront(d, tail, 0, |LengthKey|);
    SliceOfFront(d, tail, |LengthKey|, |LengthKey| + |n|);
    NatStrRoundTrip(|stream|);
  }

  /** The page tree lists the single page, object 5, and counts it. */
  lemma OnePage()
    ensures PagesContent([PageId]) == "<< /Type /Pages /Kids [5 0 R] /Count 1 >>"
  {
    assert NatStr(5) == "5";
    assert NatStr(1) == "1";
    assert KidRefs([PageId])[0] == "5 0 R";
    assert KidRefs([PageId]) == ["5 0 R"];
  }

  /** With no registered objects the subsection line reads "0 1" and the
      trailer announces a size of 1. */
  lemma CountOneLines()
    ensures SubsectionLine(0) == "0 1\n"
    ensures TrailerDict(0) == "<< /Size 1 /Root 1 0 R >>\n"
  {
    assert NatStr(1) == "1";
  }

  /** Since `objects` stays empty, the cross-reference subsection
      announces one entry and the trailer a size of 1, while six entries
      follow: the free entry and one per object. */
  lemma XrefCountIsOne(body: seq<string>)
    requires |body| == 6
    ensures var b := Buffer(body, 0);
      b[7] == "0 1\n" && b[15] == "<< /Size 1 /Root 1 0 R >>\n"
      && b[8..14] == [FreeEntry] + XrefEntries(Offsets(body)) && |b[8..14]| == 6
  {
    var x := XrefParts(0, Offsets(body));
    var t := TrailerParts(0, |Flatten(body)|);
    var b := Buffer(body, 0);
    assert b == body + x + t;
    assert b[7] == x[1] && b[15] == t[1];
    SliceOfFront(body + x, t, 8, 14);
    SliceOfConcat(body, x, 2, 8);
    assert x[2..8] == [FreeEntry] + XrefEntries(Offsets(body));
    CountOneLines();
  }
}
