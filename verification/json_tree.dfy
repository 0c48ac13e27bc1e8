/** The concrete syntax tree produced by the JSON-with-comments parser, as
    the outline code reads it: a node kind, a literal value for scalars, a
    start offset and an ordered list of children.  Property nodes are the
    key/value pairs that make up an object; their first child is the key
    (always a string node at the property's own offset) and their second
    child, when the parser found one, is the value. */
module JsonTree {
  import opened Wrappers

  /** A JavaScript value as read from `node.value`.  Numbers are kept as
      their `String(value)` rendering, which is all the outline code ever
      does with them. */
  datatype JsVal =
    | JStr(s: string)
    | JNum(text: string)
    | JBool(b: bool)
    | JNull
    | JUndefined

  /** JavaScript truthiness.  JSON cannot denote NaN, so the only falsy
      number is zero, whose rendering is "0" (also for -0). */
  predicate Truthy(v: JsVal) {
    match v
    case JStr(s) => s != ""
    case JNum(text) => text != "0"
    case JBool(b) => b
    case JNull => false
    case JUndefined => false
  }

  /** JavaScript `String(v)`, as used by string concatenation and templates. */
  function ToText(v: JsVal): (r: string)
    ensures v.JStr? ==> r == v.s
    ensures v.JNum? ==> r == v.text
    ensures v == JBool(true) ==> r == "true"
    ensures v == JBool(false) ==> r == "false"
    ensures v == JNull ==> r == "null"
    ensures v == JUndefined ==> r == "undefined"
  {
    match v
    case JStr(s) => s
    case JNum(text) => text
    case JBool(b) => if b then "true" else "false"
    case JNull => "null"
    case JUndefined => "undefined"
  }

  /** JavaScript `a || b` on values. */
  function Or(a: JsVal, b: JsVal): (r: JsVal)
    ensures Truthy(a) ==> r == a
    ensures !Truthy(a) ==> r == b
  {
    if Truthy(a) then a else b
  }

  datatype Node =
    | Obj(props: seq<Property>, offset: nat)
    | Arr(items: seq<Node>, offset: nat)
    | PropNode(prop: Property)
    | Str(s: string, offset: nat)
    | Num(text: string, offset: nat)
    | Bool(b: bool, offset: nat)
    | Null(offset: nat)

  datatype Property = Property(key: string, keyOffset: nat, value: Option<Node>)

  /** `node.offset`; a property node starts where its key starts. */
  function StartOffset(n: Node): nat {
    match n
    case PropNode(p) => p.keyOffset
    case Obj(_, offset) => offset
    case Arr(_, offset) => offset
    case Str(_, offset) => offset
    case Num(_, offset) => offset
    case Bool(_, offset) => offset
    case Null(offset) => offset
  }

  /** `node.value`: only scalar nodes carry one. */
  function Value(n: Node): (r: JsVal)
    ensures r.JStr? <==> n.Str?
    ensures (n.Obj? || n.Arr? || n.PropNode?) ==> r == JUndefined
  {
    match n
    case Str(s, _) => JStr(s)
    case Num(text, _) => JNum(text)
    case Bool(b, _) => JBool(b)
    case Null(_) => JNull
    case _ => JUndefined
  }

  /** The key node a property node holds as its first child. */
  function KeyNode(p: Property): Node {
    Str(p.key, p.keyOffset)
  }

  /** `node.children`: undefined for scalars; an object's children are its
      property nodes; a property's are its key and, if present, its value. */
  function Children(n: Node): (r: Option<seq<Node>>)
    ensures r.None? <==> (n.Str? || n.Num? || n.Bool? || n.Null?)
    ensures n.Obj? ==> r.Some? && |r.value| == |n.props|
                       && forall i | 0 <= i < |n.props| :: r.value[i] == PropNode(n.props[i])
    ensures n.Arr? ==> r == Some(n.items)
    ensures n.PropNode? ==> r.Some? && 1 <= |r.value| <= 2 && r.value[0] == KeyNode(n.prop)
                            && (|r.value| == 2 <==> n.prop.value.Some?)
                            && (n.prop.value.Some? ==> r.value[1] == n.prop.value.value)
  {
    match n
    case Obj(props, _) => Some(seq(|props|, i requires 0 <= i < |props| => PropNode(props[i])))
    case Arr(items, _) => Some(items)
    case PropNode(p) =>
      Some([KeyNode(p)] + (if p.value.Some? then [p.value.value] else []))
    case _ => None
  }

  /** A child list with undefined read as empty, for navigation by index. */
  function Kids(n: Node): seq<Node> {
    match Children(n)
    case Some(cs) => cs
    case None => []
  }

  /** A node position in the tree as the sequence of child indices taken
      from the root: this is the identity `parent` links provide. */
  type Path = seq<nat>

  function NodeAt(root: Node, path: Path): (r: Option<Node>)
    decreases |path|
  {
    if path == [] then Some(root)
    else if path[0] < |Kids(root)| then NodeAt(Kids(root)[path[0]], path[1..])
    else None
  }

  lemma {:induction false} NodeAtAppend(root: Node, path: Path, i: nat)
    requires NodeAt(root, path).Some?
    ensures NodeAt(root, path + [i]) ==
            (var n := NodeAt(root, path).value;
             if i < |Kids(n)| then Some(Kids(n)[i]) else None)
    decreases |path|
  {
    if path == [] {
      assert path + [i] == [i];
      assert [i][1..] == [];
    } else {
      assert (path + [i])[1..] == path[1..] + [i];
      NodeAtAppend(Kids(root)[path[0]], path[1..], i);
    }
  }
}
