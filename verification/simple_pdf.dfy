/** The `SimplePDF` class: `createPDF` fills a buffer of strings with the
    file header, five objects, the cross-reference table and the trailer,
    recording the offset of every object as it goes. */
module SimplePdfWriter {
  import opened Common
  import opened PdfText
  import opened PdfFormat

  /** `parts.join("")` is the parts one after another. */
  lemma {:induction false} JoinIsFlatten(parts: seq<string>)
    ensures Join(parts, "") == Flatten(parts)
    decreases |parts|
  {
    if |parts| == 1 {
      assert parts == [] + [parts[0]];
      FlattenAppend([], parts[0]);
    } else if |parts| > 1 {
      JoinIsFlatten(parts[1..]);
      assert parts == [parts[0]] + parts[1..];
      FlattenConcat([parts[0]], parts[1..]);
      assert [parts[0]] == [] + [parts[0]];
      FlattenAppend([], parts[0]);
    }
  }

  /** After the header and the first k objects: the buffer is the first k + 1
      parts of the body and the offsets are the first k offsets. */
  predicate Written(buffer: seq<string>, offsets: seq<nat>, contents: seq<string>, k: nat)
    requires |contents| == 5 && k <= 5
  {
    buffer == Body(contents)[..k + 1] && offsets == Offsets(Body(contents))[..k]
  }

  /** Writing object k + 1 extends both by one. */
  lemma WriteStep(buffer: seq<string>, offsets: seq<nat>, contents: seq<string>, k: nat)
    requires |contents| == 5 && k < 5
    requires Written(buffer, offsets, contents, k)
    ensures Written(buffer + [ObjText(k + 1, contents[k])], offsets + [|Flatten(buffer)|], contents, k + 1)
  {
    var body := Body(contents);
    PrefixStep(body, k + 1);
    PrefixStep(Offsets(body), k);
  }

  /** The cross-reference entries pushed so far, after the buffer they
      extend. */
  method PushXrefEntries(buffer: seq<string>, offsets: seq<nat>) returns (buffer': seq<string>)
    ensures buffer' == buffer + XrefEntries(offsets)
  {
    buffer' := buffer;
    for i := 0 to |offsets|
      invariant buffer' == buffer + XrefEntries(offsets[..i])
    {
      assert XrefEntries(offsets[..i + 1]) == XrefEntries(offsets[..i]) + [XrefEntry(offsets[i])];
      buffer' := buffer' + [XrefEntry(offsets[i])];
    }
    assert offsets[..|offsets|] == offsets;
  }

  class SimplePDF {
    var objects: seq<string>
    var pages: seq<nat>
    var buffer: seq<string>
    var xrefOffsets: seq<nat>

    constructor()
      ensures objects == [] && pages == [] && buffer == [] && xrefOffsets == []
    {
      objects := [];
      pages := [];
      buffer := [];
      xrefOffsets := [];
    }

    /** `addObject`: registers an object; its id is its position counted
        from 1. */
    method AddObject(content: string) returns (id: nat)
      modifies this
      ensures objects == old(objects) + [content]
      ensures id == |objects| && objects[id - 1] == content
      ensures pages == old(pages) && buffer == old(buffer) && xrefOffsets == old(xrefOffsets)
    {
      objects := objects + [content];
      id := |objects|;
    }

    /** `currentOffset`: the length of the text written so far. */
    method CurrentOffset() returns (n: nat)
      ensures n == |Flatten(buffer)|
    {
      var raw := Join(buffer, "");
      JoinIsFlatten(buffer);
      n := |raw|;
    }

    /** `writeObj`: records where the object starts, then writes it. */
    method WriteObj(id: nat, content: string)
      modifies this
      ensures xrefOffsets == old(xrefOffsets) + [|Flatten(old(buffer))|]
      ensures buffer == old(buffer) + [ObjText(id, content)]
      ensures objects == old(objects) && pages == old(pages)
    {
      var offset := CurrentOffset();
      xrefOffsets := xrefOffsets + [offset];
      buffer := buffer + [ObjHeader(id) + content + "\nendobj\n"];
    }

    /** `createPDF`: the bytes of the one-page file for a title and a text.
        The fields are reset first, so the bytes depend on the title and the
        text alone. */
    method CreatePDF(title: string, textContent: string) returns (data: array<byte>)
      modifies this
      ensures fresh(data)
      ensures data[..] == Latin1(PdfString(title, textContent))
      ensures objects == [] && pages == [PageId]
      ensures buffer == PdfBuffer(title, textContent)
      ensures xrefOffsets == Offsets(Body(Contents(ContentObj(StreamText(title, textContent)))))
    {
      var formattedText := FormatTextStream(title, textContent);
      data := WriteDocument(formattedText);
    }

    /** The rest of `createPDF` once the content stream is formatted: the
        state is reset, the header, the five objects, the cross-reference
        table and the trailer are written, and the text is stored as
        bytes. */
    method WriteDocument(formattedText: string) returns (data: array<byte>)
      modifies this
      ensures fresh(data)
      ensures data[..] == Latin1(Flatten(Buffer(Body(Contents(ContentObj(formattedText))), 0)))
      ensures objects == [] && pages == [PageId]
      ensures buffer == Buffer(Body(Contents(ContentObj(formattedText))), 0)
      ensures xrefOffsets == Offsets(Body(Contents(ContentObj(formattedText))))
    {
      objects := [];
      pages := [];
      xrefOffsets := [];
      buffer := [];

      buffer := buffer + [Header];

      var contentObj := ContentObj(formattedText);
      pages := pages + [PageId];

      WriteObjects(contentObj);
      WriteXrefAndTrailer();

      var raw := Join(buffer, "");
      JoinIsFlatten(buffer);
      data := StoreChars(raw);
    }

    /** The five `writeObj` calls of `createPDF`, after the header. */
    method WriteObjects(contentObj: string)
      requires buffer == [Header] && xrefOffsets == [] && pages == [PageId]
      modifies this
      ensures buffer == Body(Contents(contentObj))
      ensures xrefOffsets == Offsets(Body(Contents(contentObj)))
      ensures objects == old(objects) && pages == old(pages)
    {
      ghost var contents := [CatalogContent(), PagesContent(pages), FontContent, contentObj, PageContent()];
      assert buffer == Body(contents)[..1];
      assert Written(buffer, xrefOffsets, contents, 0);

      WriteStep(buffer, xrefOffsets, contents, 0);
      WriteObj(CatalogId, CatalogContent());
      WriteStep(buffer, xrefOffsets, contents, 1);
      WriteObj(PageTreeId, PagesContent(pages));
      WriteStep(buffer, xrefOffsets, contents, 2);
      WriteObj(FontId, FontContent);
      WriteStep(buffer, xrefOffsets, contents, 3);
      WriteObj(ContentId, contentObj);
      WriteStep(buffer, xrefOffsets, contents, 4);
      WriteObj(PageId, PageContent());

      ghost var body := Body(contents);
      assert Written(buffer, xrefOffsets, contents, 5);
      assert body[..6] == body;
      assert Offsets(body)[..5] == Offsets(body);
    }

    /** The cross-reference table and trailer of `createPDF`, after the five
        objects. */
    method WriteXrefAndTrailer()
      requires |buffer| == 6 && xrefOffsets == Offsets(buffer)
      modifies this
      ensures buffer == Buffer(old(buffer), |objects|)
      ensures objects == old(objects) && pages == old(pages) && xrefOffsets == old(xrefOffsets)
    {
      var xrefStart := CurrentOffset();
      var offsets := xrefOffsets;
      var body := buffer;
      var b := body + ["xref\n", SubsectionLine(|objects|), FreeEntry];
      b := PushXrefEntries(b, offsets);
      b := b + TrailerParts(|objects|, xrefStart);
      buffer := b;
    }
  }
}
