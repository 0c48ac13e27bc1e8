/** The document symbol index: the whole template flattened into one list
    of named locations.  Each top-level key gives a property entry; the
    entries of the `state`, `styles` and `data` tables follow their key as
    fields; the `layout` tree follows its key as a pre-order list of
    objects whose names carry their depth as leading tabs. */
module Symbols {
  import opened Wrappers
  import opened JsonTree
  import opened Text
  import opened TextDocument
  import opened Semantics
  import opened Comments
  import opened Outline

  datatype SymbolKind = PropertySymbol | FieldSymbol | ObjectSymbol

  /** A symbol as handed to the editor: name, kind, container name and the
      offset its location points at. */
  datatype Symbol = Symbol(name: string, kind: SymbolKind, container: string, offset: nat)

  /** Where the source reads a member of a value that has none and the
      whole request throws. */
  datatype SymbolError =
    | NoChildList   // `.children` of a scalar or of a missing value
    | NoKey         // `.children[0]` of a node without children
    | NoValue       // `.children[1]` of a property without a value

  /** Number of nodes in a tree, counting the key and the pair of every
      property; it bounds the symbol recursion. */
  function Size(n: Node): (r: nat)
    ensures r >= 1
    decreases n
  {
    match n
    case Obj(props, _) => 1 + PropsSize(props)
    case Arr(items, _) => 1 + ItemsSize(items)
    case PropNode(p) => PropSize(p)
    case _ => 1
  }

  function PropSize(p: Property): (r: nat)
    ensures r >= 2
    decreases p
  {
    2 + match p.value case Some(v) => Size(v) case None => 0
  }

  function PropsSize(ps: seq<Property>): nat
    decreases ps
  {
    if ps == [] then 0 else PropSize(ps[0]) + PropsSize(ps[1..])
  }

  function ItemsSize(items: seq<Node>): nat
    decreases items
  {
    if items == [] then 0 else Size(items[0]) + ItemsSize(items[1..])
  }

  lemma {:induction false} PropsSizeBound(ps: seq<Property>, k: nat)
    requires k < |ps|
    ensures PropSize(ps[k]) <= PropsSize(ps)
  {
    if k > 0 {
      PropsSizeBound(ps[1..], k - 1);
    }
  }

  lemma {:induction false} PairsSize(ps: seq<Property>, offset: nat)
    ensures ItemsSize(Children(Obj(ps, offset)).value) == PropsSize(ps)
  {
    var cs := Children(Obj(ps, offset)).value;
    if ps != [] {
      assert cs[1..] == Children(Obj(ps[1..], offset)).value;
      PairsSize(ps[1..], offset);
    }
  }

  /** The nodes listed under an object are smaller, all together, than the
      object itself. */
  lemma ChildrenSmaller(n: Node)
    requires OutlineChildren(n).Some?
    ensures ItemsSize(OutlineChildren(n).value) < Size(n)
  {
    if GetProp(n, "children").None? {
      return;
    }
    var k := FindProp(n.props, "children").value;
    var c := GetProp(n, "children").value;
    assert c == n.props[k].value.value;
    PropsSizeBound(n.props, k);
    assert Size(c) + 2 < Size(n);
    assert OutlineChildren(n) == Children(c);
    match c
    case Obj(ps, offset) =>
      PairsSize(ps, offset);
      assert Size(c) == 1 + PropsSize(ps);
    case Arr(items, _) =>
      assert Size(c) == 1 + ItemsSize(items);
    case PropNode(p) =>
      var kids := Children(c).value;
      assert Size(kids[0]) == 1;
      assert ItemsSize(kids) == 1 + ItemsSize(kids[1..]);
      if p.value.Some? {
        assert kids[1..] == [p.value.value];
        assert ItemsSize(kids[1..]) == Size(p.value.value) + ItemsSize(kids[1..][1..]);
      } else {
        assert kids[1..] == [];
      }
    case _ =>
  }

  /** The name starts with `depth` tabs. */
  predicate Indented(name: string, depth: nat) {
    |name| >= depth && forall k | 0 <= k < depth :: name[k] == '\t'
  }

  /** Where an object's symbol points: the value of its `type` property,
      else its first property, else the node itself. */
  function SymbolOffset(n: Node): (r: nat)
    ensures GetProp(n, "type").Some? ==> r == StartOffset(GetProp(n, "type").value)
    ensures GetProp(n, "type").None? && n.Obj? && n.props != [] ==> r == n.props[0].keyOffset
    ensures GetProp(n, "type").None? && !(n.Obj? && n.props != []) ==> r == StartOffset(n)
  {
    if n.Obj? then
      match GetProp(n, "type")
      case Some(t) => StartOffset(t)
      case None => if n.props != [] then StartOffset(Kids(n)[0]) else StartOffset(n)
    else StartOffset(n)
  }

  /** The offset a symbol points at always starts a node of the subtree:
      the node itself, its first pair, or its `type` value. */
  lemma SymbolOffsetIsNodeStart(n: Node)
    ensures exists path: Path | |path| <= 2 ::
              NodeAt(n, path).Some? && StartOffset(NodeAt(n, path).value) == SymbolOffset(n)
  {
    if GetProp(n, "type").Some? {
      var k := FindProp(n.props, "type").value;
      assert NodeAt(n, [k, 1]) == Some(GetProp(n, "type").value) by {
        assert [k, 1][1..] == [1];
        assert Kids(n)[k] == PropNode(n.props[k]);
        assert NodeAt(PropNode(n.props[k]), [1]) == NodeAt(n.props[k].value.value, []);
      }
    } else if n.Obj? && n.props != [] {
      assert NodeAt(n, [0]) == Some(PropNode(n.props[0])) by {
        assert NodeAt(PropNode(n.props[0]), []) == Some(PropNode(n.props[0]));
      }
    } else {
      assert NodeAt(n, []) == Some(n);
    }
  }

  /** The container name: the description, a space, the comment; the space
      is there even when both sides are empty. */
  function ContainerText(n: Node, doc: Document): (r: string)
    ensures var d := ToText(Or(GetDesc(n), JStr("")));
            var c := OrEmpty(GetComment(n, doc));
            && |r| == |d| + 1 + |c|
            && StartsWith(r, d) && r[|d|] == ' ' && EndsWith(r, c)
  {
    var d := ToText(Or(GetDesc(n), JStr("")));
    var c := OrEmpty(GetComment(n, doc));
    SpaceJoined(d, c);
    d + " " + c
  }

  lemma SpaceJoined(d: string, c: string)
    ensures var r := d + " " + c;
            |r| == |d| + 1 + |c| && StartsWith(r, d) && r[|d|] == ' ' && EndsWith(r, c)
  {
    var r := d + " " + c;
    assert r[..|d|] == d;
    assert r[|r| - |c|..] == c;
  }

  /** The entry an object gets in the index, at the given depth. */
  function HeadSymbol(n: Node, doc: Document, indent: nat): (r: Symbol)
    ensures r.kind == ObjectSymbol && Indented(r.name, indent)
    ensures r.name[indent..] == ToText(GetType(n))
  {
    Symbol(Tabs(indent) + ToText(GetType(n)), ObjectSymbol, ContainerText(n, doc), SymbolOffset(n))
  }

  /** A node's entry is fixed by its type, its container text and the
      offset it points at: an object entry, named by the type after
      `indent` tabs. */
  lemma HeadSymbolIs(n: Node, doc: Document, indent: nat, t: JsVal, c: string, off: nat)
    requires GetType(n) == t && ContainerText(n, doc) == c && SymbolOffset(n) == off
    ensures HeadSymbol(n, doc, indent) == Symbol(Tabs(indent) + ToText(t), ObjectSymbol, c, off)
  {
  }

  /** Two partial results in order; the first failure wins. */
  function Append<T>(a: Result<seq<T>, SymbolError>, b: Result<seq<T>, SymbolError>): (r: Result<seq<T>, SymbolError>)
    ensures r.Success? <==> a.Success? && b.Success?
    ensures r.Success? ==> r.value == a.value + b.value
    ensures a.Failure? ==> r == a
  {
    match a
    case Failure(e) => Failure(e)
    case Success(xs) =>
      match b
      case Failure(e) => Failure(e)
      case Success(ys) => Success(xs + ys)
  }

  /** A node together with the depth it is indexed at. */
  type Visit = (Node, nat)

  /** All depths at least `depth`. */
  predicate AtLeast(vs: seq<Visit>, depth: nat) {
    forall k | 0 <= k < |vs| :: vs[k].1 >= depth
  }

  lemma AtLeastAppend(a: seq<Visit>, b: seq<Visit>, depth: nat)
    requires AtLeast(a, depth) && AtLeast(b, depth)
    ensures AtLeast(a + b, depth)
  {
    forall k | 0 <= k < |a + b|
      ensures (a + b)[k].1 >= depth
    {
      if k >= |a| {
        assert (a + b)[k] == b[k - |a|];
      }
    }
  }

  /** The order `_provideNodeSymbols` visits a subtree in: the node, then
      the visits of each of its outline children one level deeper, in
      order.  A `children` value without a child list makes it throw. */
  function Preorder(n: Node, depth: nat): (r: Result<seq<Visit>, SymbolError>)
    ensures r.Success? ==> |r.value| >= 1 && r.value[0] == (n, depth)
    ensures r.Success? ==> AtLeast(r.value[1..], depth + 1)
    ensures OutlineChildren(n).None? ==> r == Failure(NoChildList)
    ensures GetProp(n, "children").None? ==> r == Success([(n, depth)])
    decreases Size(n), 1
  {
    match OutlineChildren(n)
    case None => Failure(NoChildList)
    case Some(cs) =>
      ChildrenSmaller(n);
      var rest := PreorderList(cs, depth + 1);
      assert rest.Success? ==> ([(n, depth)] + rest.value)[1..] == rest.value;
      assert cs == [] ==> rest == Success([]) && [(n, depth)] + rest.value == [(n, depth)];
      Append(Success([(n, depth)]), rest)
  }

  /** The visits of a list of sibling nodes at one depth. */
  function PreorderList(cs: seq<Node>, depth: nat): (r: Result<seq<Visit>, SymbolError>)
    ensures r.Success? ==> AtLeast(r.value, depth)
    ensures r.Success? ==> (r.value == [] <==> cs == [])
    ensures r.Success? && cs != [] ==> r.value[0] == (cs[0], depth)
    decreases ItemsSize(cs), 2
  {
    if cs == [] then Success([])
    else
      var a := Preorder(cs[0], depth);
      var b := PreorderList(cs[1..], depth);
      if a.Success? && b.Success? then
        assert a.value == [a.value[0]] + a.value[1..];
        AtLeastAppend([a.value[0]], a.value[1..], depth);
        AtLeastAppend(a.value, b.value, depth);
        Append(a, b)
      else Append(a, b)
  }

  /** The nodes visited at exactly `depth`, in order. */
  function NodesAt(vs: seq<Visit>, depth: nat): (r: seq<Node>)
    ensures |r| <= |vs|
  {
    if vs == [] then []
    else (if vs[0].1 == depth then [vs[0].0] else []) + NodesAt(vs[1..], depth)
  }

  lemma {:induction false} NodesAtAppend(a: seq<Visit>, b: seq<Visit>, depth: nat)
    ensures NodesAt(a + b, depth) == NodesAt(a, depth) + NodesAt(b, depth)
  {
    if a != [] {
      var h := if a[0].1 == depth then [a[0].0] else [];
      assert (a + b)[0] == a[0];
      assert (a + b)[1..] == a[1..] + b;
      assert NodesAt(a + b, depth) == h + NodesAt(a[1..] + b, depth);
      NodesAtAppend(a[1..], b, depth);
    } else {
      assert a + b == b;
    }
  }

  lemma {:induction false} NodesAtDeeper(vs: seq<Visit>, depth: nat)
    requires AtLeast(vs, depth + 1)
    ensures NodesAt(vs, depth) == []
  {
    if vs != [] {
      NodesAtDeeper(vs[1..], depth);
    }
  }

  /** A node's own visits hold one node at its depth: the node. */
  lemma OwnDepth(n: Node, depth: nat)
    requires Preorder(n, depth).Success?
    ensures NodesAt(Preorder(n, depth).value, depth) == [n]
  {
    var a := Preorder(n, depth).value;
    NodesAtDeeper(a[1..], depth);
    assert a == [a[0]] + a[1..];
    NodesAtAppend([a[0]], a[1..], depth);
    assert NodesAt([a[0]], depth) == [n] by {
      assert [a[0]][1..] == a[..0];
    }
  }

  /** Among the visits of a list of siblings, those at the siblings' own
      depth are the siblings themselves, in order. */
  lemma {:induction false} SiblingsAtTheirDepth(cs: seq<Node>, depth: nat)
    requires PreorderList(cs, depth).Success?
    ensures NodesAt(PreorderList(cs, depth).value, depth) == cs
    decreases |cs|
  {
    if cs != [] {
      var a := Preorder(cs[0], depth);
      var b := PreorderList(cs[1..], depth);
      assert PreorderList(cs, depth) == Append(a, b);
      SiblingsAtTheirDepth(cs[1..], depth);
      OwnDepth(cs[0], depth);
      NodesAtAppend(a.value, b.value, depth);
      assert cs == [cs[0]] + cs[1..];
    }
  }

  /** The visits one level below a node are exactly its outline children,
      in the order the tree view lists them. */
  lemma ChildrenOneLevelDown(n: Node, depth: nat)
    requires Preorder(n, depth).Success?
    ensures NodesAt(Preorder(n, depth).value, depth + 1) == OutlineChildren(n).value
  {
    var cs := OutlineChildren(n).value;
    var rest := PreorderList(cs, depth + 1).value;
    SiblingsAtTheirDepth(cs, depth + 1);
    NodesAtAppend([(n, depth)], rest, depth + 1);
  }

  /** A subtree is indexed exactly when the node has a child list and all
      its children's subtrees are; its visits are the node followed by the
      visits of the children one level deeper. */
  lemma PreorderIff(n: Node, depth: nat)
    ensures Preorder(n, depth).Success? <==>
              OutlineChildren(n).Some? && PreorderList(OutlineChildren(n).value, depth + 1).Success?
    ensures Preorder(n, depth).Success? ==>
              Preorder(n, depth).value == [(n, depth)] + PreorderList(OutlineChildren(n).value, depth + 1).value
  {
  }

  /** The siblings' visits succeed exactly when every sibling's subtree
      does: one scalar `children` value anywhere below makes the whole
      index throw. */
  lemma {:induction false} PreorderListIff(cs: seq<Node>, depth: nat)
    ensures PreorderList(cs, depth).Success? <==> forall k | 0 <= k < |cs| :: Preorder(cs[k], depth).Success?
    decreases |cs|
  {
    if cs != [] {
      PreorderListIff(cs[1..], depth);
      assert forall k | 1 <= k < |cs| :: cs[1..][k - 1] == cs[k];
    }
  }

  /** Appending partial results is associative: the first failure wins
      however the results are grouped. */
  lemma AppendAssoc<T>(a: Result<seq<T>, SymbolError>, b: Result<seq<T>, SymbolError>, c: Result<seq<T>, SymbolError>)
    ensures Append(Append(a, b), c) == Append(a, Append(b, c))
  {
    if a.Success? && b.Success? && c.Success? {
      assert (a.value + b.value) + c.value == a.value + (b.value + c.value);
    }
  }

  /** The empty success is neutral on either side. */
  lemma AppendEmpty<T>(a: Result<seq<T>, SymbolError>)
    ensures Append(Success([]), a) == a && Append(a, Success([])) == a
  {
    if a.Success? {
      assert [] + a.value == a.value && a.value + [] == a.value;
    }
  }

  /** Indexing two runs of siblings one after the other is indexing the
      first run, then the second; the first failure wins. */
  lemma {:induction false} PreorderListSplit(cs: seq<Node>, ds: seq<Node>, depth: nat)
    ensures PreorderList(cs + ds, depth) == Append(PreorderList(cs, depth), PreorderList(ds, depth))
    decreases |cs|
  {
    if cs == [] {
      assert cs + ds == ds;
      AppendEmpty(PreorderList(ds, depth));
    } else {
      assert (cs + ds)[0] == cs[0];
      assert (cs + ds)[1..] == cs[1..] + ds;
      PreorderListSplit(cs[1..], ds, depth);
      AppendAssoc(Preorder(cs[0], depth), PreorderList(cs[1..], depth), PreorderList(ds, depth));
    }
  }

  /** Depth first: the visits of the siblings are the visits of the
      siblings before the `k`-th, then the whole subtree of the `k`-th,
      then the visits of the siblings after it. */
  lemma PreorderListSegments(cs: seq<Node>, depth: nat, k: nat)
    requires k < |cs|
    ensures PreorderList(cs, depth) ==
              Append(Append(PreorderList(cs[..k], depth), Preorder(cs[k], depth)), PreorderList(cs[k + 1..], depth))
  {
    assert cs == cs[..k] + ([cs[k]] + cs[k + 1..]);
    assert PreorderList([cs[k]], depth) == Preorder(cs[k], depth) by {
      assert [cs[k]][1..] == [];
      AppendEmpty(Preorder(cs[k], depth));
    }
    PreorderListSplit(cs[..k], [cs[k]] + cs[k + 1..], depth);
    PreorderListSplit([cs[k]], cs[k + 1..], depth);
    AppendAssoc(PreorderList(cs[..k], depth), Preorder(cs[k], depth), PreorderList(cs[k + 1..], depth));
  }

  /** Every visit one level deeper. */
  function Shift(vs: seq<Visit>): (r: seq<Visit>)
    ensures |r| == |vs|
    ensures forall k | 0 <= k < |vs| :: r[k] == (vs[k].0, vs[k].1 + 1)
  {
    seq(|vs|, k requires 0 <= k < |vs| => (vs[k].0, vs[k].1 + 1))
  }

  function ShiftResult(r: Result<seq<Visit>, SymbolError>): Result<seq<Visit>, SymbolError> {
    match r
    case Success(vs) => Success(Shift(vs))
    case Failure(e) => Failure(e)
  }

  lemma ShiftAppend(a: Result<seq<Visit>, SymbolError>, b: Result<seq<Visit>, SymbolError>)
    ensures ShiftResult(Append(a, b)) == Append(ShiftResult(a), ShiftResult(b))
  {
    if a.Success? && b.Success? {
      assert Shift(a.value + b.value) == Shift(a.value) + Shift(b.value);
    }
  }

  /** Starting a subtree one level deeper moves every visit one level
      deeper and changes nothing else, failures included. */
  lemma {:induction false} PreorderShift(n: Node, i: nat)
    ensures Preorder(n, i + 1) == ShiftResult(Preorder(n, i))
    decreases Size(n), 1
  {
    assert Shift([(n, i)]) == [(n, i + 1)];
    match OutlineChildren(n)
    case None =>
    case Some(cs) =>
      ChildrenSmaller(n);
      PreorderListShift(cs, i + 1);
      ShiftAppend(Success([(n, i)]), PreorderList(cs, i + 1));
  }

  lemma {:induction false} PreorderListShift(cs: seq<Node>, i: nat)
    ensures PreorderList(cs, i + 1) == ShiftResult(PreorderList(cs, i))
    decreases ItemsSize(cs), 2
  {
    if cs != [] {
      PreorderShift(cs[0], i);
      PreorderListShift(cs[1..], i);
      ShiftAppend(Preorder(cs[0], i), PreorderList(cs[1..], i));
    }
  }

  /** Object entries, from index `from` on, whose names start with
      `depth` tabs. */
  predicate LayeredFrom(syms: seq<Symbol>, from: nat, depth: nat) {
    forall k | from <= k < |syms| :: syms[k].kind == ObjectSymbol && Indented(syms[k].name, depth)
  }

  /** The entry of every visit. */
  function Heads(vs: seq<Visit>, doc: Document): (r: seq<Symbol>)
    ensures |r| == |vs|
    ensures forall k | 0 <= k < |vs| :: r[k] == HeadSymbol(vs[k].0, doc, vs[k].1)
  {
    seq(|vs|, k requires 0 <= k < |vs| => HeadSymbol(vs[k].0, doc, vs[k].1))
  }

  lemma HeadIndented(n: Node, doc: Document, d: nat, depth: nat)
    requires d >= depth
    ensures HeadSymbol(n, doc, d).kind == ObjectSymbol && Indented(HeadSymbol(n, doc, d).name, depth)
  {
  }

  lemma HeadsLayered(vs: seq<Visit>, doc: Document, from: nat, depth: nat)
    requires forall k | from <= k < |vs| :: vs[k].1 >= depth
    ensures LayeredFrom(Heads(vs, doc), from, depth)
  {
    var r := Heads(vs, doc);
    forall k | from <= k < |r|
      ensures r[k].kind == ObjectSymbol && Indented(r[k].name, depth)
    {
      HeadIndented(vs[k].0, doc, vs[k].1, depth);
    }
  }

  /** `_provideNodeSymbols`: one object entry per visited node, in
      pre-order: the node's own entry first, its subtree's entries after
      it with at least one more tab. */
  function NodeSymbols(n: Node, doc: Document, indent: nat): (r: Result<seq<Symbol>, SymbolError>)
    ensures r.Success? <==> Preorder(n, indent).Success?
    ensures r.Success? ==> |r.value| == |Preorder(n, indent).value|
    ensures r.Success? ==> r.value[0] == HeadSymbol(n, doc, indent)
    ensures r.Success? ==> LayeredFrom(r.value, 0, indent) && LayeredFrom(r.value, 1, indent + 1)
    ensures r.Success? ==> r.value == Heads(Preorder(n, indent).value, doc)
  {
    match Preorder(n, indent)
    case Failure(e) => Failure(e)
    case Success(vs) =>
      VisitHeads(vs, doc, indent);
      Success(Heads(vs, doc))
  }

  /** The entries of a visit list that starts at `indent` and goes deeper
      after its first visit. */
  lemma VisitHeads(vs: seq<Visit>, doc: Document, indent: nat)
    requires |vs| >= 1 && vs[0].1 == indent && AtLeast(vs[1..], indent + 1)
    ensures LayeredFrom(Heads(vs, doc), 0, indent) && LayeredFrom(Heads(vs, doc), 1, indent + 1)
  {
    VisitDepths(vs, indent);
    HeadsLayered(vs, doc, 0, indent);
    HeadsLayered(vs, doc, 1, indent + 1);
  }

  lemma VisitDepths(vs: seq<Visit>, indent: nat)
    requires |vs| >= 1 && vs[0].1 == indent && AtLeast(vs[1..], indent + 1)
    ensures forall k | 0 <= k < |vs| :: vs[k].1 >= indent
    ensures forall k | 1 <= k < |vs| :: vs[k].1 >= indent + 1
  {
    assert forall k | 1 <= k < |vs| :: vs[1..][k - 1] == vs[k];
  }

  /** A node without a `children` value is indexed by its own entry alone. */
  lemma LeafSymbols(n: Node, doc: Document, indent: nat)
    requires GetProp(n, "children").None?
    ensures NodeSymbols(n, doc, indent) == Success([HeadSymbol(n, doc, indent)])
  {
    assert Preorder(n, indent) == Success([(n, indent)]);
    assert Heads([(n, indent)], doc) == [HeadSymbol(n, doc, indent)];
  }

  /** Every symbol's name with one more tab in front. */
  function Deeper(syms: seq<Symbol>): (r: seq<Symbol>)
    ensures |r| == |syms|
    ensures forall k | 0 <= k < |syms| :: r[k] == syms[k].(name := "\t" + syms[k].name)
  {
    seq(|syms|, k requires 0 <= k < |syms| => syms[k].(name := "\t" + syms[k].name))
  }

  lemma TabsStep(i: nat, t: string)
    ensures Tabs(i + 1) + t == "\t" + (Tabs(i) + t)
  {
    assert Tabs(i + 1) == "\t" + Tabs(i) by {
      assert forall k | 0 <= k < i + 1 :: Tabs(i + 1)[k] == ("\t" + Tabs(i))[k];
    }
  }

  lemma HeadDeeper(n: Node, doc: Document, i: nat)
    ensures HeadSymbol(n, doc, i + 1) == HeadSymbol(n, doc, i).(name := "\t" + HeadSymbol(n, doc, i).name)
  {
    TabsStep(i, ToText(GetType(n)));
  }

  /** Indexing a subtree one level deeper adds exactly one tab to every
      name and changes nothing else; it fails exactly when the shallower
      index fails. */
  lemma NodeIndentShift(n: Node, doc: Document, i: nat)
    ensures NodeSymbols(n, doc, i + 1).Success? <==> NodeSymbols(n, doc, i).Success?
    ensures NodeSymbols(n, doc, i).Success? ==>
              NodeSymbols(n, doc, i + 1).value == Deeper(NodeSymbols(n, doc, i).value)
  {
    PreorderShift(n, i);
    if Preorder(n, i).Success? {
      HeadsDeeper(Preorder(n, i).value, doc);
    }
  }

  lemma HeadsDeeper(vs: seq<Visit>, doc: Document)
    ensures Heads(Shift(vs), doc) == Deeper(Heads(vs, doc))
  {
    var a := Heads(vs, doc);
    var b := Heads(Shift(vs), doc);
    forall k | 0 <= k < |vs|
      ensures b[k] == Deeper(a)[k]
    {
      HeadDeeper(vs[k].0, doc, vs[k].1);
    }
  }


  /** A layout that is a bare string is still indexed: one entry, no
      failure. */
  lemma BareStringLayout(s: string, offset: nat, doc: Document, indent: nat)
    ensures NodeSymbols(Str(s, offset), doc, indent) == Success([HeadSymbol(Str(s, offset), doc, indent)])
  {
    LeafSymbols(Str(s, offset), doc, indent);
  }

  /** The field entries of a `state`, `styles` or `data` table: one per
      child of its value, named by that child's first child with one tab. */
  function FieldSymbols(fs: seq<Node>, section: string): (r: Result<seq<Symbol>, SymbolError>)
    ensures r.Success? ==> |r.value| == |fs|
    ensures r.Success? ==> forall k | 0 <= k < |fs| ::
              Kids(fs[k]) != []
              && r.value[k] == Symbol("\t" + ToText(Value(Kids(fs[k])[0])), FieldSymbol,
                                      "<" + section + ">", StartOffset(Kids(fs[k])[0]))
    ensures r.Failure? <==> exists k | 0 <= k < |fs| :: Kids(fs[k]) == []
  {
    if fs == [] then Success([])
    else
      var first :=
        match Children(fs[0])
        case None => Failure(NoChildList)
        case Some(ks) =>
          if ks == [] then Failure(NoKey)
          else Success([Symbol("\t" + ToText(Value(ks[0])), FieldSymbol, "<" + section + ">", StartOffset(ks[0]))]);
      var rest := FieldSymbols(fs[1..], section);
      assert forall k | 1 <= k < |fs| :: fs[k] == fs[1..][k - 1];
      Append(first, rest)
  }

  /** Whether a top-level key opens one of the tables listed as fields. */
  predicate IsTableKey(key: JsVal) {
    key in {JStr("state"), JStr("styles"), JStr("data")}
  }

  /** The property entry a top-level member's key node gives: a property
      under `<template>` named by the key's text, at the key.  A key node
      that is not a string is named by `String(value)`. */
  function KeySymbol(k: Node): (r: Symbol)
    ensures r.kind == PropertySymbol && r.container == "<template>"
    ensures k.Str? ==> r.name == k.s && r.offset == k.offset
    ensures k.PropNode? || k.Obj? || k.Arr? ==> r.name == "undefined"
  {
    Symbol(ToText(Value(k)), PropertySymbol, "<template>", StartOffset(k))
  }

  /** What a top-level key opens: a table listed as fields, the layout,
      or nothing that is listed. */
  datatype KeyKind = TableKey | LayoutKey | PlainKey

  function KindOf(key: JsVal): (r: KeyKind)
    ensures r == TableKey <==> IsTableKey(key)
    ensures r == LayoutKey <==> key == JStr("layout")
  {
    if IsTableKey(key) then TableKey
    else if key == JStr("layout") then LayoutKey
    else PlainKey
  }

  /** The entries under a top-level member's value: a table's fields, or
      the objects of the layout. */
  function ValueSymbols(key: JsVal, v: Node, doc: Document): (r: Result<seq<Symbol>, SymbolError>)
    ensures r.Success? ==> forall k | 0 <= k < |r.value| :: r.value[k].kind != PropertySymbol
  {
    if IsTableKey(key) then
      match Children(v)
      case None => Failure(NoChildList)
      case Some(fs) => FieldSymbols(fs, key.s)
    else NodeSymbols(v, doc, 0)
  }

  /** A table's value without a child list throws; otherwise the entries
      under a table are its fields, and those under anything else are the
      objects of its outline. */
  lemma ValueCases(key: JsVal, v: Node, doc: Document)
    ensures IsTableKey(key) && Children(v).None? ==> ValueSymbols(key, v, doc) == Failure(NoChildList)
    ensures IsTableKey(key) && Children(v).Some? ==> ValueSymbols(key, v, doc) == FieldSymbols(Children(v).value, key.s)
    ensures !IsTableKey(key) ==> ValueSymbols(key, v, doc) == NodeSymbols(v, doc, 0)
  {
  }

  /** The entries from a member's key node and optional value node: the
      key as a property, then, for a table or the layout, the entries under
      the value, which must be present. */
  function MemberSymbols(ks: seq<Node>, doc: Document): (r: Result<seq<Symbol>, SymbolError>)
    ensures ks == [] ==> r == Failure(NoKey)
    ensures r.Success? ==>
              && |r.value| >= 1
              && r.value[0] == KeySymbol(ks[0])
              && (forall k | 1 <= k < |r.value| :: r.value[k].kind != PropertySymbol)
    ensures ks != [] && KindOf(Value(ks[0])) == PlainKey ==> r == Success([KeySymbol(ks[0])])
    ensures |ks| == 1 && KindOf(Value(ks[0])) != PlainKey ==> r == Failure(NoValue)
    ensures |ks| >= 2 && KindOf(Value(ks[0])) != PlainKey ==>
              r == Append(Success([KeySymbol(ks[0])]), ValueSymbols(Value(ks[0]), ks[1], doc))
  {
    if ks == [] then Failure(NoKey)
    else
      var head := KeySymbol(ks[0]);
      match KindOf(Value(ks[0]))
      case PlainKey => Success([head])
      case _ =>
        if |ks| < 2 then Failure(NoValue)
        else
          var rest := ValueSymbols(Value(ks[0]), ks[1], doc);
          HeadThenRest(head, rest);
          Append(Success([head]), rest)
  }

  /** A property entry followed by entries none of which is a property. */
  lemma HeadThenRest(h: Symbol, rest: Result<seq<Symbol>, SymbolError>)
    requires rest.Success? ==> forall k | 0 <= k < |rest.value| :: rest.value[k].kind != PropertySymbol
    ensures var r := Append(Success([h]), rest);
            r.Success? ==> |r.value| >= 1 && r.value[0] == h && forall k | 1 <= k < |r.value| :: r.value[k].kind != PropertySymbol
  {
    if rest.Success? {
      assert forall k | 1 <= k < 1 + |rest.value| :: ([h] + rest.value)[k] == rest.value[k - 1];
    }
  }

  /** The entries one top-level member contributes: its key as a property,
      then the table's fields or the layout's objects. */
  function EntrySymbols(e: Node, doc: Document): (r: Result<seq<Symbol>, SymbolError>)
    ensures Children(e).None? ==> r == Failure(NoChildList)
    ensures Children(e).Some? ==> r == MemberSymbols(Kids(e), doc)
    ensures r.Success? ==>
              && |r.value| >= 1
              && r.value[0] == KeySymbol(Kids(e)[0])
              && (forall k | 1 <= k < |r.value| :: r.value[k].kind != PropertySymbol)
  {
    match Children(e)
    case None => Failure(NoChildList)
    case Some(ks) =>
      assert Kids(e) == ks;
      MemberSymbols(ks, doc)
  }

  /** The cases of one member's contribution, read off its key and value
      nodes: no key, a plain key alone, a table's fields or the layout's
      objects after the key, or a missing value. */
  lemma EntryCases(e: Node, doc: Document)
    ensures Children(e).Some? && Kids(e) == [] ==> EntrySymbols(e, doc) == Failure(NoKey)
    ensures Kids(e) != [] && !IsTableKey(Value(Kids(e)[0])) && Value(Kids(e)[0]) != JStr("layout") ==>
              EntrySymbols(e, doc) == Success([KeySymbol(Kids(e)[0])])
    ensures |Kids(e)| == 1 && (IsTableKey(Value(Kids(e)[0])) || Value(Kids(e)[0]) == JStr("layout")) ==>
              EntrySymbols(e, doc) == Failure(NoValue)
    ensures |Kids(e)| >= 2 && IsTableKey(Value(Kids(e)[0])) && Children(Kids(e)[1]).None? ==>
              EntrySymbols(e, doc) == Failure(NoChildList)
    ensures |Kids(e)| >= 2 && IsTableKey(Value(Kids(e)[0])) && Children(Kids(e)[1]).Some? ==>
              EntrySymbols(e, doc) ==
                Append(Success([KeySymbol(Kids(e)[0])]), FieldSymbols(Children(Kids(e)[1]).value, Value(Kids(e)[0]).s))
    ensures |Kids(e)| >= 2 && Value(Kids(e)[0]) == JStr("layout") ==>
              EntrySymbols(e, doc) == Append(Success([KeySymbol(Kids(e)[0])]), NodeSymbols(Kids(e)[1], doc, 0))
  {
    if |Kids(e)| >= 2 {
      ValueCases(Value(Kids(e)[0]), Kids(e)[1], doc);
    }
  }

  /** The entries of the top-level members in order.  The index succeeds
      exactly when every member's contribution does. */
  function EntriesSymbols(es: seq<Node>, doc: Document): (r: Result<seq<Symbol>, SymbolError>)
    ensures es == [] ==> r == Success([])
    ensures es != [] ==> r == Append(EntrySymbols(es[0], doc), EntriesSymbols(es[1..], doc))
    ensures r.Success? <==> forall k | 0 <= k < |es| :: EntrySymbols(es[k], doc).Success?
  {
    if es == [] then Success([])
    else
      assert forall k | 1 <= k < |es| :: es[1..][k - 1] == es[k];
      Append(EntrySymbols(es[0], doc), EntriesSymbols(es[1..], doc))
  }

  /** Indexing two runs of members one after the other is indexing the
      first run, then the second; the first failure wins. */
  lemma {:induction false} EntriesSymbolsSplit(es: seq<Node>, fs: seq<Node>, doc: Document)
    ensures EntriesSymbols(es + fs, doc) == Append(EntriesSymbols(es, doc), EntriesSymbols(fs, doc))
    decreases |es|
  {
    if es == [] {
      assert es + fs == fs;
      AppendEmpty(EntriesSymbols(fs, doc));
    } else {
      assert (es + fs)[0] == es[0];
      assert (es + fs)[1..] == es[1..] + fs;
      EntriesSymbolsSplit(es[1..], fs, doc);
      AppendAssoc(EntrySymbols(es[0], doc), EntriesSymbols(es[1..], doc), EntriesSymbols(fs, doc));
    }
  }

  /** `provideDocumentSymbols` on the parsed template.  A template without
      a child list throws; otherwise the index succeeds exactly when every
      top-level member's contribution does. */
  function DocumentSymbols(tpl: Node, doc: Document): (r: Result<seq<Symbol>, SymbolError>)
    ensures Children(tpl).None? ==> r == Failure(NoChildList)
    ensures tpl == Obj([], StartOffset(tpl)) ==> r == Success([])
    ensures Children(tpl).Some? ==>
              (r.Success? <==> forall k | 0 <= k < |Kids(tpl)| :: EntrySymbols(Kids(tpl)[k], doc).Success?)
  {
    match Children(tpl)
    case None => Failure(NoChildList)
    case Some(es) =>
      assert Kids(tpl) == es;
      EntriesSymbols(es, doc)
  }

  /** One more top-level member appends its contribution to the index of
      the template without it, and leaves the earlier entries unchanged. */
  lemma DocumentSymbolsAppend(ps: seq<Property>, p: Property, o: nat, doc: Document)
    ensures DocumentSymbols(Obj(ps + [p], o), doc) ==
              Append(DocumentSymbols(Obj(ps, o), doc), EntrySymbols(PropNode(p), doc))
  {
    var es := Kids(Obj(ps, o));
    var e := PropNode(p);
    assert Kids(Obj(ps + [p], o)) == es + [e];
    EntriesSymbolsSplit(es, [e], doc);
    assert EntriesSymbols([e], doc) == EntrySymbols(e, doc) by {
      assert [e][1..] == [];
      AppendEmpty(EntrySymbols(e, doc));
    }
  }

  /** The names of the property entries, in order. */
  function PropertyNames(syms: seq<Symbol>): (r: seq<string>)
    ensures |r| <= |syms|
  {
    if syms == [] then []
    else (if syms[0].kind == PropertySymbol then [syms[0].name] else []) + PropertyNames(syms[1..])
  }

  lemma {:induction false} PropertyNamesAppend(a: seq<Symbol>, b: seq<Symbol>)
    ensures PropertyNames(a + b) == PropertyNames(a) + PropertyNames(b)
  {
    if a != [] {
      var h := if a[0].kind == PropertySymbol then [a[0].name] else [];
      assert (a + b)[0] == a[0];
      assert (a + b)[1..] == a[1..] + b;
      assert PropertyNames(a + b) == h + PropertyNames(a[1..] + b);
      assert PropertyNames(a) == h + PropertyNames(a[1..]);
      PropertyNamesAppend(a[1..], b);
    } else {
      assert a + b == b;
    }
  }

  /** The property entries of one member's contribution: just its key. */
  lemma {:induction false} EntryPropertyNames(e: Node, doc: Document)
    requires EntrySymbols(e, doc).Success?
    ensures PropertyNames(EntrySymbols(e, doc).value) == [ToText(Value(Kids(e)[0]))]
  {
    var syms := EntrySymbols(e, doc).value;
    PropertyNamesAppend([syms[0]], syms[1..]);
    assert syms == [syms[0]] + syms[1..];
    NoPropertyNames(syms[1..]);
  }

  lemma {:induction false} NoPropertyNames(syms: seq<Symbol>)
    requires forall k | 0 <= k < |syms| :: syms[k].kind != PropertySymbol
    ensures PropertyNames(syms) == []
  {
    if syms != [] {
      NoPropertyNames(syms[1..]);
    }
  }

  /** The keys of the properties, in document order. */
  function Keys(props: seq<Property>): (r: seq<string>)
    ensures |r| == |props|
    ensures forall k | 0 <= k < |props| :: r[k] == props[k].key
  {
    seq(|props|, k requires 0 <= k < |props| => props[k].key)
  }

  /** The key text of every member: its first child's value as text. */
  function KeyTexts(es: seq<Node>): (r: seq<string>)
    requires forall k | 0 <= k < |es| :: Kids(es[k]) != []
    ensures |r| == |es|
    ensures forall k | 0 <= k < |es| :: r[k] == ToText(Value(Kids(es[k])[0]))
  {
    if es == [] then [] else [ToText(Value(Kids(es[0])[0]))] + KeyTexts(es[1..])
  }

  /** One member's step: its key, then the property entries of the rest. */
  lemma EntriesStep(es: seq<Node>, doc: Document)
    requires es != [] && EntriesSymbols(es, doc).Success?
    ensures Kids(es[0]) != [] && EntriesSymbols(es[1..], doc).Success?
    ensures PropertyNames(EntriesSymbols(es, doc).value)
            == [ToText(Value(Kids(es[0])[0]))] + PropertyNames(EntriesSymbols(es[1..], doc).value)
  {
    var h := EntrySymbols(es[0], doc);
    var t := EntriesSymbols(es[1..], doc);
    EntryPropertyNames(es[0], doc);
    PropertyNamesAppend(h.value, t.value);
  }

  lemma {:induction false} EntriesPropertyNames(es: seq<Node>, doc: Document)
    requires EntriesSymbols(es, doc).Success?
    ensures forall k | 0 <= k < |es| :: Kids(es[k]) != []
    ensures PropertyNames(EntriesSymbols(es, doc).value) == KeyTexts(es)
  {
    if es != [] {
      EntriesStep(es, doc);
      EntriesPropertyNames(es[1..], doc);
    }
  }

  /** For a template object, the property entries of a successful index
      are exactly its keys, once each, in document order. */
  lemma PropertyEntriesAreKeys(tpl: Node, doc: Document)
    requires tpl.Obj?
    ensures DocumentSymbols(tpl, doc).Success? ==>
              PropertyNames(DocumentSymbols(tpl, doc).value) == Keys(tpl.props)
  {
    if DocumentSymbols(tpl, doc).Success? {
      var es := Children(tpl).value;
      EntriesPropertyNames(es, doc);
      assert KeyTexts(es) == Keys(tpl.props);
    }
  }
}

module SymbolsExample {
  import opened Wrappers
  import opened JsonTree
  import opened Text
  import opened TextDocument
  import opened Semantics
  import opened Comments
  import opened Outline
  import opened Symbols

  /** The tokens of a small template written on one line. */
  const SampleTokens: seq<string> := [
    "{", "\"state\"", ": ", "{", "\"a\"", ": ", "1", ", ", "\"b\"", ": ", "2", "}", ", ",
    "\"layout\"", ": ", "{", "\"type\"", ": ", "\"stack\"", ", ", "\"children\"", ": ", "[]", "}", "}"]

  /** The document holding an empty first line and then `{"state": {"a":
      1, "b": 2}, "layout": {"type": "stack", "children": []}}` on its
      second line, indented by `o` tabs, so that the template's text starts
      at offset `o + 1`.  No node sits on the first line, so the line above
      every node's line exists. */
  function SampleDocument(o: nat): Document {
    Document([TextLine("", 1), TextLine(SampleLine(o), 0)])
  }

  /** The indented line. */
  function SampleLine(o: nat): string {
    Join([Tabs(o)] + SampleTokens, "")
  }

  /** A character none of the parts holds is not in their concatenation. */
  lemma {:induction false} JoinAvoids(parts: seq<string>, c: char)
    requires forall k, i | 0 <= k < |parts| && 0 <= i < |parts[k]| :: parts[k][i] != c
    ensures forall i | 0 <= i < |Join(parts, "")| :: Join(parts, "")[i] != c
  {
    if |parts| >= 2 {
      JoinAvoids(parts[1..], c);
      var rest := Join(parts[1..], "");
      assert Join(parts, "") == parts[0] + rest;
      assert forall i | |parts[0]| <= i < |parts[0]| + |rest| :: (parts[0] + rest)[i] == rest[i - |parts[0]|];
    }
  }

  lemma SampleTokensNoSlash()
    ensures forall k, i | 0 <= k < |SampleTokens| && 0 <= i < |SampleTokens[k]| :: SampleTokens[k][i] != '/'
  {
  }

  lemma SampleLineNoSlash(o: nat)
    ensures Slashless(SampleLine(o))
  {
    var parts := [Tabs(o)] + SampleTokens;
    SampleTokensNoSlash();
    assert forall k | 1 <= k < |parts| :: parts[k] == SampleTokens[k - 1];
    JoinAvoids(parts, '/');
  }

  /** A two-line document is free of slashes when both its lines are. */
  lemma TwoLinesNoSlash(a: TextLine, b: TextLine)
    requires Slashless(a.text) && Slashless(b.text)
    ensures NoSlash(Document([a, b]))
  {
  }

  /** The sample document holds no slash, so no comment. */
  lemma SampleNoSlash(o: nat)
    ensures NoSlash(SampleDocument(o))
  {
    SampleLineNoSlash(o);
    TwoLinesNoSlash(TextLine("", 1), TextLine(SampleLine(o), 0));
  }

  /** The template of the sample text, its text starting at offset `o`,
      with the offsets that text gives each node. */
  function StackLayout(o: nat): Node {
    Obj([Property("type", o + 39, Some(Str("stack", o + 47))), Property("children", o + 56, Some(Arr([], o + 68)))], o + 38)
  }

  function StateTable(o: nat): Node {
    Obj([Property("a", o + 11, Some(Num("1", o + 16))), Property("b", o + 19, Some(Num("2", o + 24)))], o + 10)
  }


  function StateProp(o: nat): Property {
    Property("state", o + 1, Some(StateTable(o)))
  }

  function LayoutProp(o: nat): Property {
    Property("layout", o + 28, Some(StackLayout(o)))
  }

  function Template(o: nat): Node {
    Obj([StateProp(o), LayoutProp(o)], o)
  }

  lemma StackLayoutLookups(o: nat)
    ensures GetProp(StackLayout(o), "type") == Some(Str("stack", o + 47))
    ensures GetProp(StackLayout(o), "children") == Some(Arr([], o + 68))
    ensures GetProp(StackLayout(o), "import").None?
    ensures GetProp(StackLayout(o), "style").None?
    ensures GetProp(StackLayout(o), "repeat").None?
  {
    var ps := StackLayout(o).props;
    assert FindProp(ps, "type") == Some(0);
    assert FindProp(ps, "children") == Some(1);
    assert ps[1..][1..] == [];
  }

  lemma StackLayoutType(o: nat)
    ensures GetType(StackLayout(o)) == JStr("stack")
  {
    StackLayoutLookups(o);
  }

  lemma StackLayoutStackDesc(o: nat)
    ensures TypeDesc(StackLayout(o), JStr("stack")) == ""
  {
    var n := StackLayout(o);
    StackLayoutLookups(o);
    assert StyleValue(n, "wrap").None? && StyleValue(n, "background-color").None?;
    assert NonEmpty(["", ""]) == [];
  }

  lemma StackLayoutDesc(o: nat)
    ensures GetType(StackLayout(o)) == JStr("stack")
    ensures GetDesc(StackLayout(o)) == JStr("")
  {
    var n := StackLayout(o);
    StackLayoutLookups(o);
    StackLayoutType(o);
    StackLayoutStackDesc(o);
    assert !StartsWith("type", "on-") by { assert "type"[0] != "on-"[0]; }
    assert !StartsWith("children", "on-") by { assert "children"[0] != "on-"[0]; }
    NoEventKeys(n.props);
  }

  lemma StackLayoutContainer(o: nat, doc: Document)
    requires GetComment(StackLayout(o), doc).None?
    ensures ContainerText(StackLayout(o), doc) == " "
  {
    StackLayoutDesc(o);
    assert ToText(JStr("")) + " " + "" == " ";
  }

  lemma StackLayoutOffset(o: nat)
    ensures SymbolOffset(StackLayout(o)) == o + 47
  {
    StackLayoutLookups(o);
  }

  /** The stack object's entry, whatever its container text. */
  lemma StackLayoutEntry(o: nat, doc: Document)
    ensures HeadSymbol(StackLayout(o), doc, 0) == Symbol("stack", ObjectSymbol, ContainerText(StackLayout(o), doc), o + 47)
  {
    StackLayoutType(o);
    StackLayoutOffset(o);
    HeadSymbolIs(StackLayout(o), doc, 0, JStr("stack"), ContainerText(StackLayout(o), doc), o + 47);
    assert Tabs(0) + "stack" == "stack";
  }


  lemma StackLayoutVisits(o: nat)
    ensures Preorder(StackLayout(o), 0) == Success([(StackLayout(o), 0)])
  {
    StackLayoutLookups(o);
    assert OutlineChildren(StackLayout(o)) == Some([]);
    assert PreorderList([], 1) == Success([]);
    assert [(StackLayout(o), 0)] + [] == [(StackLayout(o), 0)];
  }

  lemma StackLayoutHead(o: nat, doc: Document)
    ensures NodeSymbols(StackLayout(o), doc, 0) == Success([HeadSymbol(StackLayout(o), doc, 0)])
  {
    StackLayoutVisits(o);
    OnlyHead(StackLayout(o), doc);
  }

  /** A subtree of one node is indexed by the node's own entry. */
  lemma OnlyHead(n: Node, doc: Document)
    requires Preorder(n, 0) == Success([(n, 0)])
    ensures NodeSymbols(n, doc, 0) == Success([HeadSymbol(n, doc, 0)])
  {
    assert Heads([(n, 0)], doc) == [HeadSymbol(n, doc, 0)];
  }

  /** The field entry of one table member with a key. */
  lemma OneField(f: Node, section: string)
    requires f.PropNode?
    ensures FieldSymbols([f], section)
            == Success([Symbol("\t" + f.prop.key, FieldSymbol, "<" + section + ">", f.prop.keyOffset)])
  {
    var sym := Symbol("\t" + f.prop.key, FieldSymbol, "<" + section + ">", f.prop.keyOffset);
    assert Kids(f)[0] == KeyNode(f.prop);
    assert [f][1..] == [];
    assert [sym] + [] == [sym];
  }

  lemma StateFields(o: nat)
    ensures FieldSymbols(Children(StateTable(o)).value, "state")
            == Success([Symbol("\ta", FieldSymbol, "<state>", o + 11), Symbol("\tb", FieldSymbol, "<state>", o + 19)])
  {
    var t := StateTable(o);
    var fs := Children(t).value;
    assert fs == [PropNode(t.props[0]), PropNode(t.props[1])];
    assert fs[1..] == [fs[1]];
    OneField(fs[0], "state");
    OneField(fs[1], "state");
    var fa := FieldSymbols([fs[0]], "state").value;
    var fb := FieldSymbols([fs[1]], "state").value;
    assert FieldSymbols(fs, "state") == Append(Success(fa), Success(fb));
    assert "\t" + "a" == "\ta" && "\t" + "b" == "\tb";
    assert "<" + "state" + ">" == "<state>";
    var sa := Symbol("\ta", FieldSymbol, "<state>", o + 11);
    var sb := Symbol("\tb", FieldSymbol, "<state>", o + 19);
    assert fa == [sa] && fb == [sb];
    assert [sa] + [sb] == [sa, sb];
  }

  /** The `state` key and its two fields. */
  function StateSymbols(o: nat): seq<Symbol> {
    [Symbol("state", PropertySymbol, "<template>", o + 1),
     Symbol("\ta", FieldSymbol, "<state>", o + 11),
     Symbol("\tb", FieldSymbol, "<state>", o + 19)]
  }

  /** The `layout` key and the layout's one object, whose entry is `st`. */
  function LayoutSymbols(o: nat, st: Symbol): seq<Symbol> {
    [LayoutKeySymbol(o)] + [st]
  }

  function LayoutKeySymbol(o: nat): Symbol {
    Symbol("layout", PropertySymbol, "<template>", o + 28)
  }

  lemma StateEntry(o: nat, doc: Document)
    ensures EntrySymbols(PropNode(StateProp(o)), doc) == Success(StateSymbols(o))
  {
    var e := PropNode(StateProp(o));
    var ks := Children(e).value;
    assert ks == [KeyNode(e.prop), StateTable(o)];
    assert IsTableKey(Value(ks[0]));
    StateFields(o);
    var head := Symbol("state", PropertySymbol, "<template>", o + 1);
    var fs := [Symbol("\ta", FieldSymbol, "<state>", o + 11), Symbol("\tb", FieldSymbol, "<state>", o + 19)];
    assert EntrySymbols(e, doc) == Append(Success([head]), Success(fs));
    assert [head] + fs == StateSymbols(o);
  }

  lemma LayoutEntry(o: nat, doc: Document)
    ensures EntrySymbols(PropNode(LayoutProp(o)), doc) == Success(LayoutSymbols(o, HeadSymbol(StackLayout(o), doc, 0)))
  {
    LayoutKids(o);
    StackLayoutHead(o, doc);
    LayoutCase(PropNode(LayoutProp(o)), doc);
  }

  lemma LayoutKids(o: nat)
    ensures Kids(PropNode(LayoutProp(o))) == [Str("layout", o + 28), StackLayout(o)]
    ensures Value(Str("layout", o + 28)) == JStr("layout") && KeySymbol(Str("layout", o + 28)) == LayoutKeySymbol(o)
  {
  }

  /** A `layout` member: its key, then the entries of its value. */
  lemma LayoutCase(e: Node, doc: Document)
    requires |Kids(e)| >= 2 && Value(Kids(e)[0]) == JStr("layout")
    ensures EntrySymbols(e, doc) == Append(Success([KeySymbol(Kids(e)[0])]), NodeSymbols(Kids(e)[1], doc, 0))
  {
    EntryCases(e, doc);
  }

  /** Two entries that both succeed give their symbols one after the other. */
  lemma TwoEntries(tpl: Node, doc: Document, a: seq<Symbol>, b: seq<Symbol>)
    requires Children(tpl).Some? && |Children(tpl).value| == 2
    requires EntrySymbols(Children(tpl).value[0], doc) == Success(a)
    requires EntrySymbols(Children(tpl).value[1], doc) == Success(b)
    ensures DocumentSymbols(tpl, doc) == Success(a + b)
  {
    var es := Children(tpl).value;
    assert es[1..][1..] == [];
    assert b + [] == b;
  }

  /** A template of two members that both succeed. */
  lemma TwoProps(p: Property, q: Property, o: nat, doc: Document, a: seq<Symbol>, b: seq<Symbol>)
    requires EntrySymbols(PropNode(p), doc) == Success(a) && EntrySymbols(PropNode(q), doc) == Success(b)
    ensures DocumentSymbols(Obj([p, q], o), doc) == Success(a + b)
  {
    assert Children(Obj([p, q], o)).value == [PropNode(p), PropNode(q)];
    TwoEntries(Obj([p, q], o), doc, a, b);
  }

  /** The index of the sample template in any document, wherever its text
      starts: the `state` key, its two fields, the `layout` key, and the
      one stack object of the layout. */
  lemma SampleTemplateIndex(o: nat, doc: Document)
    ensures DocumentSymbols(Template(o), doc)
            == Success(StateSymbols(o) + LayoutSymbols(o, HeadSymbol(StackLayout(o), doc, 0)))
  {
    StateEntry(o, doc);
    LayoutEntry(o, doc);
    TwoProps(StateProp(o), LayoutProp(o), o, doc, StateSymbols(o), LayoutSymbols(o, HeadSymbol(StackLayout(o), doc, 0)));
  }

  /** The index of the sample document: the entries carry the offsets the
      template's tokens have on its second line. */
  lemma SampleDocumentIndex(o: nat)
    ensures DocumentSymbols(Template(o + 1), SampleDocument(o))
            == Success(StateSymbols(o + 1) + LayoutSymbols(o + 1, Symbol("stack", ObjectSymbol, " ", o + 48)))
  {
    SampleStackEntry(o);
    SampleTemplateIndex(o + 1, SampleDocument(o));
  }

  lemma SampleStackEntry(o: nat)
    ensures HeadSymbol(StackLayout(o + 1), SampleDocument(o), 0) == Symbol("stack", ObjectSymbol, " ", o + 48)
  {
    SampleStackContainer(o);
    StackLayoutEntry(o + 1, SampleDocument(o));
  }

  /** In the sample document the stack object has neither description nor
      comment, so its container text is a lone space. */
  lemma SampleStackContainer(o: nat)
    ensures ContainerText(StackLayout(o + 1), SampleDocument(o)) == " "
  {
    SampleNoSlash(o);
    NoSlashNoComment(StackLayout(o + 1), SampleDocument(o));
    StackLayoutContainer(o + 1, SampleDocument(o));
  }

  /** Every offset past the first line break of a document whose first
      line is empty lies on its second line. */
  lemma SecondLineOf(b: TextLine, offset: nat)
    requires offset >= 1
    ensures LineOf(Document([TextLine("", 1), b]), offset) == 1
  {
    var lines := [TextLine("", 1), b];
    assert Span(lines[0]) == 1;
    assert lines[1..] == [b];
    assert LineOf(Document([b]), offset - 1) == 0;
  }

  /** The only line the stack object's comment is searched on is the
      second one, so the line above it is the first line of the document
      and every line read exists. */
  lemma SampleStackLines(o: nat)
    ensures CandidateLines(StackLayout(o + 1), SampleDocument(o)) == [1]
  {
    StackOnSecondLine(o, TextLine(SampleLine(o), 0));
  }

  lemma StackOnSecondLine(o: nat, b: TextLine)
    ensures CandidateLines(StackLayout(o + 1), Document([TextLine("", 1), b])) == [1]
  {
    var doc := Document([TextLine("", 1), b]);
    SecondLineOf(b, o + 39);
    StackFirstChildLine(o, b);
    StackTypeLine(o, b);
    SingleCandidate(StackLayout(o + 1), doc, 1);
  }

  /** Lines that all coincide leave one candidate. */
  lemma SingleCandidate(n: Node, doc: Document, l: int)
    requires LineOf(doc, StartOffset(n)) == l
    requires FirstChildLine(n, doc) == Some(l) && TypeLine(n, doc) == Some(l)
    ensures CandidateLines(n, doc) == [l]
  {
  }

  lemma StackFirstChildLine(o: nat, b: TextLine)
    ensures FirstChildLine(StackLayout(o + 1), Document([TextLine("", 1), b])) == Some(1)
  {
    var n := StackLayout(o + 1);
    assert Children(n).value[0] == PropNode(n.props[0]);
    SecondLineOf(b, o + 40);
  }

  lemma StackTypeLine(o: nat, b: TextLine)
    ensures TypeLine(StackLayout(o + 1), Document([TextLine("", 1), b])) == Some(1)
  {
    var v := Str("stack", o + 48);
    StackLayoutTypeValue(o + 1);
    SecondLineOf(b, o + 48);
    TypeLineOf(StackLayout(o + 1), Document([TextLine("", 1), b]), v);
  }

  lemma StackLayoutTypeValue(o: nat)
    ensures GetProp(StackLayout(o), "type") == Some(Str("stack", o + 47))
  {
    assert FindProp(StackLayout(o).props, "type") == Some(0);
  }

  lemma TypeLineOf(n: Node, doc: Document, v: Node)
    requires GetProp(n, "type") == Some(v)
    ensures TypeLine(n, doc) == Some(LineOf(doc, StartOffset(v)))
  {
  }

  /** The five entries of the sample, spelled out. */
  lemma SampleSymbolsListed(o: nat)
    ensures StateSymbols(o) + LayoutSymbols(o, Symbol("stack", ObjectSymbol, " ", o + 47)) == [
              Symbol("state", PropertySymbol, "<template>", o + 1),
              Symbol("\ta", FieldSymbol, "<state>", o + 11),
              Symbol("\tb", FieldSymbol, "<state>", o + 19),
              Symbol("layout", PropertySymbol, "<template>", o + 28),
              Symbol("stack", ObjectSymbol, " ", o + 47)]
  {
  }
}
