/** Node semantics: property lookup, classification of a node into a mist
    type, and the type-specific one-line description shown next to it. */
module Semantics {
  import opened Wrappers
  import opened JsonTree
  import opened Text

  /** Index of the first property whose key is `key` (`children.find`). */
  function FindProp(props: seq<Property>, key: string): (r: Option<nat>)
    ensures r.Some? ==> r.value < |props| && props[r.value].key == key
    ensures r.Some? ==> forall j | 0 <= j < r.value :: props[j].key != key
    ensures r.None? <==> forall j | 0 <= j < |props| :: props[j].key != key
  {
    if props == [] then None
    else if props[0].key == key then Some(0)
    else match FindProp(props[1..], key)
      case Some(i) => Some(i + 1)
      case None => None
  }

  /** `getProp`: the value node of the first property named `key` of an
      object; nothing for any other node, for a missing key, or when that
      first property has no value. */
  function GetProp(n: Node, key: string): (r: Option<Node>)
    ensures !n.Obj? ==> r.None?
    ensures n.Obj? ==> forall i | 0 <= i < |n.props| && n.props[i].key == key
                          && (forall j | 0 <= j < i :: n.props[j].key != key) :: r == n.props[i].value
    ensures n.Obj? && (forall i | 0 <= i < |n.props| :: n.props[i].key != key) ==> r.None?
  {
    if n.Obj? then
      match FindProp(n.props, key)
      case Some(i) => n.props[i].value
      case None => None
    else None
  }

  /** `getProp` called on a value that may itself be null (a missing style). */
  function GetPropIn(n: Option<Node>, key: string): (r: Option<Node>)
    ensures n.None? ==> r.None?
    ensures n.Some? ==> r == GetProp(n.value, key)
  {
    if n.Some? then GetProp(n.value, key) else None
  }

  /** `getStringValue`: the property's value when it is a string node. */
  function GetStringValue(n: Option<Node>, key: string): (r: Option<string>)
    ensures r.Some? <==> GetPropIn(n, key).Some? && GetPropIn(n, key).value.Str?
    ensures r.Some? ==> r.value == GetPropIn(n, key).value.s
  {
    match GetPropIn(n, key)
    case Some(Str(s, _)) => Some(s)
    case _ => None
  }

  /** The `^\${.+}$` test: `${`, at least one character that is not a line
      terminator, and a closing `}` as the last character. */
  predicate IsExpression(s: string) {
    |s| >= 4 && s[0] == '$' && s[1] == '{' && s[|s| - 1] == '}' && NoTerminatorBetween(s, 2, |s| - 1)
  }

  lemma IsExpressionIff(s: string)
    ensures IsExpression(s) <==>
            exists m: string :: s == "${" + m + "}" && m != "" && NoLineTerminator(m)
  {
    if IsExpression(s) {
      var m := s[2..|s| - 1];
      assert s == "${" + m + "}";
    }
  }

  /** `getType`: the classification of a node.  For an object, a `type`
      property wins (its value, whatever kind it is), then `import`, then
      `children` (a stack); otherwise the object is a plain `node`. */
  function GetType(n: Node): (r: JsVal)
    ensures n.Obj? && GetProp(n, "type").Some? ==> r == Value(GetProp(n, "type").value)
    ensures n.Obj? && GetProp(n, "type").None? && GetProp(n, "import").Some? ==> r == JStr("import")
    ensures n.Obj? && GetProp(n, "type").None? && GetProp(n, "import").None?
            ==> r == (if GetProp(n, "children").Some? then JStr("stack") else JStr("node"))
    ensures n.Str? ==> (r == JStr("exp") <==> IsExpression(n.s))
    ensures !n.Obj? ==> r in {JStr("exp"), JStr("unknown")}
    ensures !n.Obj? && !n.Str? ==> r == JStr("unknown")
  {
    if n.Obj? then
      var typeNode := GetProp(n, "type");
      if typeNode.Some? then Value(typeNode.value)
      else if GetProp(n, "import").Some? then JStr("import")
      else if GetProp(n, "children").Some? then JStr("stack")
      else JStr("node")
    else if n.Str? && IsExpression(n.s) then JStr("exp")
    else JStr("unknown")
  }

  /** An object with none of `type`, `import` or `children` is a `node`. */
  lemma {:induction false} PlainObjectIsNode(props: seq<Property>, offset: nat)
    requires forall i | 0 <= i < |props| :: props[i].key !in {"type", "import", "children"}
    ensures GetType(Obj(props, offset)) == JStr("node")
  {
    var n := Obj(props, offset);
    assert forall i | 0 <= i < |props| :: props[i].key != "type";
    assert forall i | 0 <= i < |props| :: props[i].key != "import";
    assert forall i | 0 <= i < |props| :: props[i].key != "children";
  }

  /** Keys of the event-handler properties (`on-…`) in declaration order. */
  function EventKeys(props: seq<Property>): (r: seq<string>)
    ensures forall k :: k in r <==> (StartsWith(k, "on-") && exists i | 0 <= i < |props| :: props[i].key == k)
    ensures |r| <= |props|
  {
    if props == [] then []
    else
      var rest := EventKeys(props[1..]);
      assert forall i | 0 <= i < |props[1..]| :: props[1..][i] == props[i + 1];
      if StartsWith(props[0].key, "on-") then [props[0].key] + rest else rest
  }

  /** Event keys keep declaration order: adding a property at the end adds
      its key at the end, when it names an event. */
  lemma {:induction false} EventKeysAppend(props: seq<Property>, p: Property)
    ensures EventKeys(props + [p]) ==
            EventKeys(props) + (if StartsWith(p.key, "on-") then [p.key] else [])
  {
    if props == [] {
      assert [p][1..] == [];
    } else {
      assert (props + [p])[1..] == props[1..] + [p];
      EventKeysAppend(props[1..], p);
    }
  }

  function Bracketed(keys: seq<string>): (r: seq<string>)
    ensures |r| == |keys|
    ensures forall i | 0 <= i < |keys| :: r[i] == "[" + keys[i] + "]"
  {
    seq(|keys|, i requires 0 <= i < |keys| => "[" + keys[i] + "]")
  }

  /** The bracketed event keys joined by spaces, then one more space; empty
      when the object has no event handler. */
  function EventsPrefix(props: seq<Property>): (r: string)
    ensures r == "" <==> EventKeys(props) == []
    ensures EventKeys(props) != [] ==> r == Join(Bracketed(EventKeys(props)), " ") + " "
  {
    var events := Join(Bracketed(EventKeys(props)), " ");
    JoinEmptyIff(Bracketed(EventKeys(props)), " ");
    if events != "" then events + " " else ""
  }

  /** A string-valued property of the node's `style` object. */
  function StyleValue(n: Node, key: string): Option<string> {
    GetStringValue(GetProp(n, "style"), key)
  }

  /** An optional string with null read as empty (`s || ''`). */
  function OrEmpty(o: Option<string>): string {
    if o.Some? then o.value else ""
  }

  /** `a || b` on optional strings: the first one that is a non-empty string. */
  function FirstNonEmpty(a: Option<string>, b: Option<string>): (r: string)
    ensures a.Some? && a.value != "" ==> r == a.value
    ensures !(a.Some? && a.value != "") ==> r == OrEmpty(b)
  {
    if a.Some? && a.value != "" then a.value else OrEmpty(b)
  }

  function Quote(s: string): string {
    "\"" + s + "\""
  }

  /** The type-specific part of an object's description, by classified type
      (a type that is not one of these strings takes the default rule). */
  function TypeDesc(n: Node, t: JsVal): (r: string)
    requires n.Obj?
    ensures t == JStr("stack") ==>
      r == Join(NonEmpty([
             if StyleValue(n, "wrap") in {Some("wrap"), Some("wrap-reverse")}
             then "[" + StyleValue(n, "wrap").value + "]" else "",
             OrEmpty(StyleValue(n, "background-color"))]), " - ")
    ensures t == JStr("text") ==>
      var x := FirstNonEmpty(StyleValue(n, "html-text"), StyleValue(n, "text"));
      r == if x == "" then "" else Quote(x)
    ensures t == JStr("button") ==>
      r == Join(Quoted(NonEmpty([OrEmpty(StyleValue(n, "title")), OrEmpty(StyleValue(n, "image"))])), " - ")
    ensures t == JStr("image") ==>
      var x := FirstNonEmpty(StyleValue(n, "image-url"), StyleValue(n, "image"));
      r == if x == "" then "" else Quote(x)
    ensures t == JStr("scroll") ==> r == OrEmpty(StyleValue(n, "scroll-direction"))
    ensures t == JStr("paging") ==> r == OrEmpty(StyleValue(n, "direction"))
    ensures t in {JStr("indicator"), JStr("line")} ==> r == OrEmpty(StyleValue(n, "color"))
    ensures t == JStr("import") ==> r == OrEmpty(GetStringValue(Some(n), "import"))
    ensures !(t.JStr? && t.s in {"stack", "text", "button", "image", "scroll", "paging", "indicator", "line", "import"})
            ==> r == OrEmpty(StyleValue(n, "background-color"))
  {
    match t
    case JStr("stack") =>
      var wrap := StyleValue(n, "wrap");
      var marker := if wrap == Some("wrap") || wrap == Some("wrap-reverse") then "[" + wrap.value + "]" else "";
      Join(NonEmpty([marker, OrEmpty(StyleValue(n, "background-color"))]), " - ")
    case JStr("text") =>
      var text := FirstNonEmpty(StyleValue(n, "html-text"), StyleValue(n, "text"));
      if text != "" then Quote(text) else ""
    case JStr("button") =>
      Join(Quoted(NonEmpty([OrEmpty(StyleValue(n, "title")), OrEmpty(StyleValue(n, "image"))])), " - ")
    case JStr("image") =>
      var text := FirstNonEmpty(StyleValue(n, "image-url"), StyleValue(n, "image"));
      if text != "" then Quote(text) else ""
    case JStr("scroll") => OrEmpty(StyleValue(n, "scroll-direction"))
    case JStr("paging") => OrEmpty(StyleValue(n, "direction"))
    case JStr("indicator") => OrEmpty(StyleValue(n, "color"))
    case JStr("line") => OrEmpty(StyleValue(n, "color"))
    case JStr("import") => OrEmpty(GetStringValue(Some(n), "import"))
    case _ => OrEmpty(StyleValue(n, "background-color"))
  }

  function Quoted(parts: seq<string>): (r: seq<string>)
    ensures |r| == |parts|
    ensures forall i | 0 <= i < |parts| :: r[i] == Quote(parts[i])
  {
    seq(|parts|, i requires 0 <= i < |parts| => Quote(parts[i]))
  }

  /** `getDesc`.  A non-object shows its own literal value.  An object shows
      `[repeat] ` when it repeats, then its event handlers, then the part
      its type contributes; missing pieces are left out, never printed as
      `null`. */
  function GetDesc(n: Node): (r: JsVal)
    ensures !n.Obj? ==> r == Value(n)
    ensures n.Obj? ==> r.JStr?
    ensures n.Obj? ==>
      r.s == (if GetProp(n, "repeat").Some? then "[repeat] " else "")
             + EventsPrefix(n.props) + TypeDesc(n, GetType(n))
  {
    if !n.Obj? then Value(n)
    else
      var desc := TypeDesc(n, GetType(n));
      var events := EventsPrefix(n.props);
      var withEvents := events + desc;
      JStr(if GetProp(n, "repeat").Some? then "[repeat] " + withEvents else withEvents)
  }

  /** Without event handlers there is no event prefix. */
  lemma {:induction false} NoEventKeys(props: seq<Property>)
    requires forall i | 0 <= i < |props| :: !StartsWith(props[i].key, "on-")
    ensures EventKeys(props) == [] && EventsPrefix(props) == ""
  {
    if props != [] {
      assert forall i | 0 <= i < |props[1..]| :: props[1..][i] == props[i + 1];
      NoEventKeys(props[1..]);
    }
  }

  /** Without a style and an `import` value every type rule gives an
      empty part. */
  lemma NoStyleTypeDesc(n: Node, t: JsVal)
    requires n.Obj? && GetProp(n, "style").None? && GetProp(n, "import").None?
    ensures TypeDesc(n, t) == ""
  {
    assert forall k :: StyleValue(n, k).None?;
    assert NonEmpty(["", ""]) == [];
    assert Quoted([]) == [];
  }

  /** An object without `style`, `repeat`, `import` or event handlers has
      an empty description, whatever its type: every type rule reads only
      the style (or the `import` value), and missing values are left out. */
  lemma BareObjectDesc(n: Node)
    requires n.Obj?
    requires GetProp(n, "style").None? && GetProp(n, "repeat").None? && GetProp(n, "import").None?
    requires forall i | 0 <= i < |n.props| :: !StartsWith(n.props[i].key, "on-")
    ensures GetDesc(n) == JStr("")
  {
    NoEventKeys(n.props);
    NoStyleTypeDesc(n, GetType(n));
  }
}
