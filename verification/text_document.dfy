/** The editor document the comments are read from: its lines, each with
    the length of the line break that ends it, so that a character offset
    can be turned into a line number the way the editor's `positionAt`
    does. */
module TextDocument {
  import opened Wrappers

  datatype TextLine = TextLine(text: string, eolLength: nat)

  datatype Document = Document(lines: seq<TextLine>)

  /** Characters a line occupies, its line break included. */
  function Span(l: TextLine): nat {
    |l.text| + l.eolLength
  }

  /** Offset of the first character of line `k`. */
  function LineStart(lines: seq<TextLine>, k: nat): nat
    requires k <= |lines|
  {
    if k == 0 then 0 else Span(lines[0]) + LineStart(lines[1..], k - 1)
  }

  /** `positionAt(offset).line`: the line whose span holds the offset; an
      offset past the end of the text lands on the last line. */
  function LineOf(doc: Document, offset: nat): (r: nat)
    ensures doc.lines != [] ==> r < |doc.lines|
    ensures doc.lines != [] ==> LineStart(doc.lines, r) <= offset
    ensures doc.lines != [] ==> r == |doc.lines| - 1 || offset < LineStart(doc.lines, r + 1)
    decreases |doc.lines|
  {
    var lines := doc.lines;
    if |lines| <= 1 || offset < Span(lines[0]) then
      assert LineStart(lines, 0) == 0;
      assert |lines| > 1 ==> LineStart(lines, 1) == Span(lines[0]) + LineStart(lines[1..], 0);
      0
    else
      var k := LineOf(Document(lines[1..]), offset - Span(lines[0]));
      assert LineStart(lines, k + 1) == Span(lines[0]) + LineStart(lines[1..], k);
      assert k + 1 < |lines| - 1 ==> LineStart(lines, k + 2) == Span(lines[0]) + LineStart(lines[1..], k + 1);
      1 + k
  }

  /** `lineAt(line).text`; a line number outside the document has no text. */
  function LineText(doc: Document, line: int): (r: Option<string>)
    ensures r.Some? <==> 0 <= line < |doc.lines|
    ensures r.Some? ==> r.value == doc.lines[line].text
  {
    if 0 <= line < |doc.lines| then Some(doc.lines[line].text) else None
  }
}
