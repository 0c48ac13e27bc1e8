/** Comment association: the comment shown next to a node is found on the
    lines where the node, its first child or its `type` value start; for
    each such line a whole-line comment on the line above is preferred to a
    comment at the end of the line itself. */
module Comments {
  import opened Wrappers
  import opened JsonTree
  import opened Text
  import opened TextDocument
  import opened Semantics

  /** A comment as the source returns it: it starts with two slashes or
      with a slash and a star. */
  predicate CommentStart(c: string) {
    |c| >= 2 && c[0] == '/' && (c[1] == '/' || c[1] == '*')
  }

  /** The shape `^\s*\/\/` asks for, with the two slashes at `i`. */
  predicate LineCommentAt(text: string, i: int) {
    0 <= i && i + 2 <= |text| && SpaceBetween(text, 0, i) && text[i] == '/' && text[i + 1] == '/'
  }

  /** `^\s*\/\/`: a line that is blank up to two slashes. */
  predicate LineCommentLine(text: string) {
    exists i | 0 <= i <= |text| :: LineCommentAt(text, i)
  }

  /** The shape `^\s*\/\*.*\*\/\s*$` asks for, with the opening marker at
      `i` and the closing one at `j`: blanks, the block, blanks, and no line
      terminator inside the block. */
  predicate BlockAt(text: string, i: int, j: int) {
    && 0 <= i && i + 2 <= j && j + 2 <= |text|
    && SpaceBetween(text, 0, i) && text[i] == '/' && text[i + 1] == '*'
    && NoTerminatorBetween(text, i + 2, j)
    && text[j] == '*' && text[j + 1] == '/' && SpaceBetween(text, j + 2, |text|)
  }

  /** `^\s*\/\*.*\*\/\s*$`: a line holding nothing but one block comment. */
  predicate BlockCommentLine(text: string) {
    exists i, j | 0 <= i <= j <= |text| :: BlockAt(text, i, j)
  }

  /** The `//` test read off the trimmed line: it starts with two slashes. */
  predicate TrimmedIsLineComment(text: string) {
    var (a, b) := TrimBounds(text);
    a + 2 <= b && text[a] == '/' && text[a + 1] == '/'
  }

  /** The block test read off the trimmed line: an opening and a closing
      marker at its two ends and no line terminator in between. */
  predicate TrimmedIsBlock(text: string) {
    var (a, b) := TrimBounds(text);
    && a + 4 <= b && text[a] == '/' && text[a + 1] == '*'
    && text[b - 2] == '*' && text[b - 1] == '/'
    && NoTerminatorBetween(text, a + 2, b - 2)
  }

  lemma LineCommentLineIff(text: string)
    ensures LineCommentLine(text) <==> TrimmedIsLineComment(text)
  {
    var (a, b) := TrimBounds(text);
    if TrimmedIsLineComment(text) {
      assert LineCommentAt(text, a);
    }
    if LineCommentLine(text) {
      var i :| 0 <= i <= |text| && LineCommentAt(text, i);
      assert !IsJsSpace(text[i]);
      assert !IsJsSpace(text[i + 1]);
      assert i == a;
    }
  }

  lemma BlockCommentLineIff(text: string)
    ensures BlockCommentLine(text) <==> TrimmedIsBlock(text)
  {
    var (a, b) := TrimBounds(text);
    if TrimmedIsBlock(text) {
      assert BlockAt(text, a, b - 2);
    }
    if BlockCommentLine(text) {
      var i, j :| 0 <= i <= j <= |text| && BlockAt(text, i, j);
      TrimBoundsUnique(text, i, j + 2);
    }
  }

  /** `_getFullLineComment`: the trimmed line when the whole line is a
      comment.  A line number outside the document (the line above the
      first one) has none. */
  function FullLineComment(doc: Document, line: int): (r: Option<string>)
    ensures r.Some? <==> 0 <= line < |doc.lines|
                         && (LineCommentLine(doc.lines[line].text) || BlockCommentLine(doc.lines[line].text))
    ensures r.Some? ==> r.value == Trim(doc.lines[line].text)
    ensures r.Some? ==> CommentStart(r.value)
  {
    match LineText(doc, line)
    case None => None
    case Some(text) =>
      LineCommentLineIff(text);
      BlockCommentLineIff(text);
      if TrimmedIsLineComment(text) || TrimmedIsBlock(text) then Some(Trim(text)) else None
  }

  datatype TailKind = SlashSlash | SlashStar

  /** A block comment opened before `j` that closes at `j` with only
      blanks after it. */
  predicate BlockCloseAt(text: string, i: nat, j: int) {
    && i + 2 <= j && j + 2 <= |text| && text[j] == '*' && text[j + 1] == '/'
    && NoTerminatorBetween(text, i + 2, j) && SpaceBetween(text, j + 2, |text|)
  }

  /** Where a trailing comment of the given kind can start: `\/\/.*$` (the
      rest of the line has no line terminator), or `\/\*.*\*\/\s*$` (a
      block that closes with only blanks after it). */
  predicate TailAt(text: string, i: nat, kind: TailKind) {
    && i + 2 <= |text| && text[i] == '/'
    && match kind
       case SlashSlash => text[i + 1] == '/' && NoTerminatorBetween(text, i + 2, |text|)
       case SlashStar => text[i + 1] == '*' && exists j | i + 2 <= j <= |text| - 2 :: BlockCloseAt(text, i, j)
  }

  /** The leftmost start, at or after `from`, of a trailing comment: where
      an unanchored regular expression finds its match. */
  function FirstTail(text: string, from: nat, kind: TailKind): (r: Option<nat>)
    ensures r.Some? ==> from <= r.value && TailAt(text, r.value, kind)
    ensures r.Some? ==> forall k | from <= k < r.value :: !TailAt(text, k, kind)
    ensures r.None? ==> forall k | from <= k :: !TailAt(text, k, kind)
    decreases |text| - from
  {
    if from + 2 > |text| then None
    else if TailAt(text, from, kind) then Some(from)
    else FirstTail(text, from + 1, kind)
  }

  /** Where the trailing comment of a line starts: the leftmost `//`
      comment, else the leftmost block comment closing the line. */
  function TailStart(text: string): (r: Option<nat>)
    ensures r.Some? ==> TailAt(text, r.value, SlashSlash) || TailAt(text, r.value, SlashStar)
    ensures (exists i :: TailAt(text, i, SlashSlash)) ==> r == FirstTail(text, 0, SlashSlash)
    ensures r.None? <==> (forall i :: !TailAt(text, i, SlashSlash)) && (forall i :: !TailAt(text, i, SlashStar))
    ensures (forall i :: !TailAt(text, i, SlashSlash)) ==> r == FirstTail(text, 0, SlashStar)
  {
    match FirstTail(text, 0, SlashSlash)
    case Some(i) => Some(i)
    case None => FirstTail(text, 0, SlashStar)
  }

  /** `_getLineTailComment`: the line from where its trailing comment starts. */
  function LineTailComment(doc: Document, line: int): (r: Option<string>)
    ensures r.Some? <==> 0 <= line < |doc.lines| && TailStart(doc.lines[line].text).Some?
    ensures r.Some? ==> r.value == doc.lines[line].text[TailStart(doc.lines[line].text).value..]
    ensures r.Some? ==> CommentStart(r.value)
  {
    if line < 0 then None
    else match LineText(doc, line)
      case None => None
      case Some(text) =>
        match TailStart(text)
        case Some(i) => Some(text[i..])
        case None => None
  }

  /** The comment one candidate line contributes: a whole-line comment on
      the line above first, a trailing comment on the line itself second. */
  function LineComment(doc: Document, line: int): (r: Option<string>)
    ensures FullLineComment(doc, line - 1).Some? ==> r == FullLineComment(doc, line - 1)
    ensures FullLineComment(doc, line - 1).None? ==> r == LineTailComment(doc, line)
    ensures r.Some? ==> CommentStart(r.value)
  {
    match FullLineComment(doc, line - 1)
    case Some(c) => Some(c)
    case None => LineTailComment(doc, line)
  }

  /** Index of the first present entry. */
  function FirstSome(cs: seq<Option<string>>): (r: Option<nat>)
    ensures r.Some? ==> r.value < |cs| && cs[r.value].Some?
    ensures r.Some? ==> forall m | 0 <= m < r.value :: cs[m].None?
    ensures r.None? <==> forall m | 0 <= m < |cs| :: cs[m].None?
  {
    if cs == [] then None
    else if cs[0].Some? then Some(0)
    else match FirstSome(cs[1..])
      case Some(k) => Some(k + 1)
      case None => None
  }

  /** What each candidate line contributes, in candidate order. */
  function LineComments(doc: Document, lines: seq<int>): (r: seq<Option<string>>)
    ensures |r| == |lines|
    ensures forall k | 0 <= k < |lines| :: r[k] == LineComment(doc, lines[k])
  {
    seq(|lines|, k requires 0 <= k < |lines| => LineComment(doc, lines[k]))
  }

  /** The line of the node's first child, when it has one. */
  function FirstChildLine(n: Node, doc: Document): (r: Option<int>)
    ensures r.Some? <==> Children(n).Some? && Children(n).value != []
    ensures r.Some? ==> r.value == LineOf(doc, StartOffset(Children(n).value[0]))
  {
    match Children(n)
    case Some(cs) => if cs != [] then Some(LineOf(doc, StartOffset(cs[0]))) else None
    case None => None
  }

  /** The line of the node's `type` value, when it has one. */
  function TypeLine(n: Node, doc: Document): (r: Option<int>)
    ensures r.Some? <==> GetProp(n, "type").Some?
    ensures r.Some? ==> r.value == LineOf(doc, StartOffset(GetProp(n, "type").value))
  {
    match GetProp(n, "type")
    case Some(t) => Some(LineOf(doc, StartOffset(t)))
    case None => None
  }

  function AsSeq(o: Option<int>): seq<int> {
    if o.Some? then [o.value] else []
  }

  /** The lines to search, in `Set` insertion order: the node's start line,
      then its first child's line if that is new, then its `type` value's
      line if that is new. */
  function CandidateLines(n: Node, doc: Document): (r: seq<int>)
    ensures r != [] && r[0] == LineOf(doc, StartOffset(n))
    ensures forall i, j | 0 <= i < j < |r| :: r[i] != r[j]
    ensures Children(n).Some? && Children(n).value != [] ==> LineOf(doc, StartOffset(Children(n).value[0])) in r
    ensures GetProp(n, "type").Some? ==> LineOf(doc, StartOffset(GetProp(n, "type").value)) in r
    ensures forall l | l in r ::
              l == LineOf(doc, StartOffset(n))
              || (Children(n).Some? && Children(n).value != [] && l == LineOf(doc, StartOffset(Children(n).value[0])))
              || (GetProp(n, "type").Some? && l == LineOf(doc, StartOffset(GetProp(n, "type").value)))
    ensures r == InsertionOrder(LineOf(doc, StartOffset(n)), FirstChildLine(n, doc), TypeLine(n, doc))
  {
    var own := LineOf(doc, StartOffset(n));
    var f := FirstChildLine(n, doc);
    var t := TypeLine(n, doc);
    DedupInOrder(own, f, t);
    InsertionOrderShape(own, f, t);
    Dedup([own] + AsSeq(f) + AsSeq(t))
  }

  lemma InsertionOrderShape(own: int, f: Option<int>, t: Option<int>)
    ensures var r := InsertionOrder(own, f, t);
            && r != [] && r[0] == own
            && (forall i, j | 0 <= i < j < |r| :: r[i] != r[j])
            && (f.Some? ==> f.value in r)
            && (t.Some? ==> t.value in r)
            && (forall l | l in r :: l == own || (f.Some? && l == f.value) || (t.Some? && l == t.value))
  {
  }

  /** The own line, then the first child's line if it is new, then the
      `type` value's line if it is new. */
  function InsertionOrder(own: int, f: Option<int>, t: Option<int>): seq<int> {
    [own]
    + (if f.Some? && f.value != own then [f.value] else [])
    + (if t.Some? && t.value != own && f != t then [t.value] else [])
  }

  /** A `Set` built from the three candidates iterates them in insertion
      order, each kept only when new. */
  lemma DedupInOrder(own: int, f: Option<int>, t: Option<int>)
    ensures Dedup([own] + AsSeq(f) + AsSeq(t)) == InsertionOrder(own, f, t)
  {
    var xs := [own] + AsSeq(f) + AsSeq(t);
    if f.Some? && t.Some? {
      assert xs == [own, f.value, t.value];
      Dedup3(own, f.value, t.value);
    } else if f.Some? {
      assert xs == [own, f.value];
      Dedup2(own, f.value);
    } else if t.Some? {
      assert xs == [own, t.value];
      Dedup2(own, t.value);
    } else {
      assert xs == [own];
      Dedup1(own);
    }
  }

  /** `getComment`: the comment of the first candidate line that has one. */
  function GetComment(n: Node, doc: Document): (r: Option<string>)
    ensures r.Some? ==> CommentStart(r.value)
    ensures r.None? <==> forall l | l in CandidateLines(n, doc) :: LineComment(doc, l).None?
    ensures LineComment(doc, LineOf(doc, StartOffset(n))).Some?
            ==> r == LineComment(doc, LineOf(doc, StartOffset(n)))
  {
    FirstComment(doc, CandidateLines(n, doc))
  }

  /** The first comment found along a list of lines: none exactly when no
      line has one, and the first line's own comment when it has one. */
  function FirstComment(doc: Document, lines: seq<int>): (r: Option<string>)
    ensures r.Some? ==> CommentStart(r.value)
    ensures r.None? <==> forall l | l in lines :: LineComment(doc, l).None?
    ensures lines != [] && LineComment(doc, lines[0]).Some? ==> r == LineComment(doc, lines[0])
  {
    var cs := LineComments(doc, lines);
    if FirstSome(cs).None? then
      NoneAlong(doc, lines);
      None
    else
      cs[FirstSome(cs).value]
  }

  lemma NoneAlong(doc: Document, lines: seq<int>)
    requires FirstSome(LineComments(doc, lines)).None?
    ensures forall l | l in lines :: LineComment(doc, l).None?
  {
    var cs := LineComments(doc, lines);
    forall l | l in lines
      ensures LineComment(doc, l).None?
    {
      var k :| 0 <= k < |lines| && lines[k] == l;
      assert cs[k].None?;
    }
  }

  /** The first candidate line with a comment decides, and no later one. */
  lemma {:induction false} GetCommentFirstHit(n: Node, doc: Document, k: nat)
    requires k < |CandidateLines(n, doc)|
    requires forall m | 0 <= m < k :: LineComment(doc, CandidateLines(n, doc)[m]).None?
    requires LineComment(doc, CandidateLines(n, doc)[k]).Some?
    ensures GetComment(n, doc) == LineComment(doc, CandidateLines(n, doc)[k])
  {
    FirstHitOf(doc, CandidateLines(n, doc), k);
  }

  lemma FirstHitOf(doc: Document, lines: seq<int>, k: nat)
    requires k < |lines|
    requires forall m | 0 <= m < k :: LineComment(doc, lines[m]).None?
    requires LineComment(doc, lines[k]).Some?
    ensures FirstComment(doc, lines) == LineComment(doc, lines[k])
  {
    var cs := LineComments(doc, lines);
    var r := FirstSome(cs);
    assert cs[k].Some?;
    assert r.Some?;
    assert r.value == k;
  }

  /** Along the candidate lines, a whole-line comment on the line above
      one of them wins over a trailing comment on that line itself, once
      the earlier candidates have produced nothing.  `GetComment` is this
      search along `CandidateLines`. */
  lemma FullLineBeatsTail(doc: Document, lines: seq<int>, k: nat)
    requires k < |lines|
    requires forall m | 0 <= m < k :: LineComment(doc, lines[m]).None?
    requires FullLineComment(doc, lines[k] - 1).Some?
    ensures FirstComment(doc, lines) == FullLineComment(doc, lines[k] - 1)
  {
    FirstHitOf(doc, lines, k);
  }

  /** The text holds no slash. */
  predicate Slashless(text: string) {
    forall i | 0 <= i < |text| :: text[i] != '/'
  }

  /** No line of the document holds a slash. */
  predicate NoSlash(doc: Document) {
    forall l | 0 <= l < |doc.lines| :: Slashless(doc.lines[l].text)
  }

  /** Every comment the source recognises starts with a slash, so a line
      of a document without slashes contributes nothing. */
  lemma NoSlashNoLineComment(doc: Document, line: int)
    requires NoSlash(doc)
    ensures LineComment(doc, line).None?
  {
    if 0 <= line - 1 < |doc.lines| {
      NoSlashText(doc.lines[line - 1].text);
    }
    if 0 <= line < |doc.lines| {
      NoSlashText(doc.lines[line].text);
    }
  }

  lemma NoSlashText(text: string)
    requires Slashless(text)
    ensures !LineCommentLine(text) && !BlockCommentLine(text) && TailStart(text).None?
  {
  }

  /** A node of a document without slashes has no comment. */
  lemma NoSlashNoComment(n: Node, doc: Document)
    requires NoSlash(doc)
    ensures GetComment(n, doc).None?
  {
    forall l | l in CandidateLines(n, doc)
      ensures LineComment(doc, l).None?
    {
      NoSlashNoLineComment(doc, l);
    }
  }
}
