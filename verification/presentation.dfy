/** What the outline shows for a node: its type in bold sans-serif letters,
    followed by the description and the comment, and the key of its icon. */
module Presentation {
  import opened Wrappers
  import opened JsonTree
  import opened Text
  import opened TextDocument
  import opened Semantics
  import opened Comments

  const LowerShift: int := 0x1D5EE - 0x61
  const UpperShift: int := 0x1D5D4 - 0x41

  predicate IsLower(c: char) { 'a' <= c <= 'z' }
  predicate IsUpper(c: char) { 'A' <= c <= 'Z' }

  /** Letters of the Mathematical Sans-Serif Bold block. */
  predicate IsBoldLower(c: char) { 0x1D5EE <= c as int <= 0x1D607 }
  predicate IsBoldUpper(c: char) { 0x1D5D4 <= c as int <= 0x1D5ED }

  function BoldChar(c: char): (r: char)
    ensures IsLower(c) ==> IsBoldLower(r)
    ensures IsUpper(c) ==> IsBoldUpper(r)
  {
    if IsLower(c) then (c as int + LowerShift) as char
    else if IsUpper(c) then (c as int + UpperShift) as char
    else c
  }

  function UnboldChar(c: char): (r: char)
    ensures IsBoldLower(c) ==> IsLower(r)
    ensures IsBoldUpper(c) ==> IsUpper(r)
  {
    if IsBoldLower(c) then (c as int - LowerShift) as char
    else if IsBoldUpper(c) then (c as int - UpperShift) as char
    else c
  }

  /** `boldText`: ASCII letters are moved into the bold sans-serif block,
      one code point for one code point; everything else is kept. */
  function BoldText(s: string): (r: string)
    ensures |r| == |s|
    ensures forall i | 0 <= i < |s| :: r[i] == BoldChar(s[i])
    ensures forall i | 0 <= i < |s| && IsLower(s[i]) :: r[i] as int == s[i] as int + LowerShift
    ensures forall i | 0 <= i < |s| && IsUpper(s[i]) :: r[i] as int == s[i] as int + UpperShift
    ensures forall i | 0 <= i < |s| && !IsLower(s[i]) && !IsUpper(s[i]) :: r[i] == s[i]
  {
    if s == "" then "" else [BoldChar(s[0])] + BoldText(s[1..])
  }

  /** Subtracting the same offsets maps bold letters back to ASCII. */
  function UnboldText(s: string): (r: string)
    ensures |r| == |s|
    ensures forall i | 0 <= i < |s| :: r[i] == UnboldChar(s[i])
    ensures forall i | 0 <= i < |s| && IsBoldLower(s[i]) :: r[i] as int == s[i] as int - LowerShift
    ensures forall i | 0 <= i < |s| && IsBoldUpper(s[i]) :: r[i] as int == s[i] as int - UpperShift
    ensures forall i | 0 <= i < |s| && !IsBoldLower(s[i]) && !IsBoldUpper(s[i]) :: r[i] == s[i]
  {
    if s == "" then "" else [UnboldChar(s[0])] + UnboldText(s[1..])
  }

  predicate NoBoldLetters(s: string) {
    forall i | 0 <= i < |s| :: !IsBoldLower(s[i]) && !IsBoldUpper(s[i])
  }

  lemma BoldCharRoundTrip(c: char)
    requires !IsBoldLower(c) && !IsBoldUpper(c)
    ensures UnboldChar(BoldChar(c)) == c
  {
  }

  /** Unbolding undoes bolding on any text that had no bold letters. */
  lemma BoldRoundTrip(s: string)
    requires NoBoldLetters(s)
    ensures UnboldText(BoldText(s)) == s
  {
    var u := UnboldText(BoldText(s));
    forall i | 0 <= i < |s|
      ensures u[i] == s[i]
    {
      BoldCharRoundTrip(s[i]);
    }
  }

  /** Bolding twice is bolding once: bold letters are left alone. */
  lemma BoldIdempotent(s: string)
    ensures BoldText(BoldText(s)) == BoldText(s)
  {
    var b := BoldText(s);
    var bb := BoldText(b);
    forall i | 0 <= i < |s|
      ensures bb[i] == b[i]
    {
      assert bb[i] == BoldChar(BoldChar(s[i]));
    }
  }

  /** `boldText` applied to a value: a non-string has no `length`, so its
      loop never runs and the result is empty. */
  function BoldValue(v: JsVal): (r: string)
    ensures v.JStr? ==> r == BoldText(v.s)
    ensures !v.JStr? ==> r == ""
  {
    if v.JStr? then BoldText(v.s) else ""
  }

  /** The type shown for a node: its classification, or `unknown` when that
      is falsy. */
  function ShownType(n: Node): (r: JsVal)
    ensures Truthy(r)
    ensures Truthy(GetType(n)) ==> r == GetType(n)
    ensures !Truthy(GetType(n)) ==> r == JStr("unknown")
    ensures n.Obj? && GetProp(n, "type").None? ==> r.JStr? && r.s in {"import", "stack", "node"}
  {
    Or(GetType(n), JStr("unknown"))
  }

  /** The label built from its parts: the bold type, then, when the
      description is a non-empty string or there is a comment, ` ∙ `
      followed by each of the two that is present and a space after each.
      A description that is not a string has no `length`, so on its own it
      does not open the tail. */
  function LabelText(head: string, desc: JsVal, comment: Option<string>): (r: string)
    requires comment.Some? ==> comment.value != ""
    ensures StartsWith(r, head)
    ensures r == head <==> !(desc.JStr? && desc.s != "") && comment.None?
    ensures r != head ==>
      r == head + " ∙ " + (if Truthy(desc) then ToText(desc) + " " else "")
                        + (if comment.Some? then comment.value + " " else "")
  {
    var d := Or(desc, JStr(""));
    var c := OrEmpty(comment);
    if (d.JStr? && |d.s| > 0) || |c| > 0 then
      var r := head + " ∙ " + (if Truthy(d) then ToText(d) + " " else "") + (if c != "" then c + " " else "");
      assert |r| > |head|;
      r
    else head
  }

  /** `getLabel` against the given document. */
  function Label(n: Node, doc: Document): (r: string)
    ensures StartsWith(r, BoldValue(ShownType(n)))
  {
    var comment := GetComment(n, doc);
    LabelText(BoldValue(ShownType(n)), GetDesc(n), comment)
  }

  /** An object whose description is empty and that has no comment is
      labelled by its bold type alone; otherwise something follows. */
  lemma ObjectLabelBare(n: Node, doc: Document)
    requires n.Obj?
    ensures Label(n, doc) == BoldValue(ShownType(n))
            <==> GetDesc(n).s == "" && GetComment(n, doc).None?
  {
  }

  /** A number in an outline is labelled without its value unless it has a
      comment: the value has no `length`, so the label stops after the type. */
  lemma NumberLabelHidesValue(text: string, offset: nat, doc: Document)
    requires GetComment(Num(text, offset), doc).None?
    ensures Label(Num(text, offset), doc) == BoldText("unknown")
  {
  }

  /** `getIcon` without the file lookup: the icon key.  A stack is drawn
      vertical when its `style.direction` is `vertical` or
      `vertical-reverse` and horizontal otherwise; any other node uses its
      shown type as text. */
  function IconKey(n: Node): (r: string)
    ensures GetType(n) == JStr("stack") ==>
              (r == "stack_v" || r == "stack_h")
              && (r == "stack_v" <==> ValueOrNull(GetPropIn(GetProp(n, "style"), "direction")) in {JStr("vertical"), JStr("vertical-reverse")})
    ensures GetType(n) != JStr("stack") ==> r == ToText(ShownType(n))
  {
    if GetType(n) == JStr("stack") then
      var direction := GetPropIn(GetProp(n, "style"), "direction");
      var isVertical := ValueOrNull(direction) == JStr("vertical") || ValueOrNull(direction) == JStr("vertical-reverse");
      if isVertical then "stack_v" else "stack_h"
    else ToText(ShownType(n))
  }

  /** `direction && direction.value`: a missing node reads as a falsy value. */
  function ValueOrNull(n: Option<Node>): (r: JsVal)
    ensures n.None? ==> !Truthy(r)
    ensures r.JStr? <==> n.Some? && n.value.Str?
    ensures r.JStr? ==> r.s == n.value.s
  {
    if n.Some? then Value(n.value) else JNull
  }

  /** Every classification a mist object can get from a string `type`
      names its own icon, except `stack` which picks an orientation. */
  lemma IconOfTypedObject(n: Node, t: string)
    requires n.Obj? && GetProp(n, "type").Some? && GetProp(n, "type").value.Str?
    requires GetProp(n, "type").value.s == t && t != "stack"
    ensures IconKey(n) == (if t == "" then "unknown" else t)
  {
  }
}
