# Mist outline and symbol index, modelled in Dafny

`MistNodeTreeProvider` is the piece of the mist template editor extension
that turns the generic parse tree of a JSON-with-comments template into
two things:

- the **outline**, a tree view of layout nodes. Each entry has a label:
  the node's type in bold sans-serif letters, its description and its
  comment. Each entry also has an icon and an expanded or flat state.
- the **document symbol index**, a flat list of named locations. The
  top-level members are taken in document order, and each member gives its
  key first. A `state`, `styles` or `data` member then gives its table's
  fields. A `layout` member then gives every layout object in pre-order,
  with its depth written as leading tabs. So the entries of different
  members are interleaved key by key; they are not grouped by kind.

The model is written in pure functions over immutable data:

- `JsonTree`: the parse tree the parser produces (objects, arrays, property
  pairs, scalars, offsets) and the JavaScript values read from it:
  truthiness, `String(v)` and `a || b`.
- `Text`: the string operations the code relies on. These are `trim`,
  `join`, `'\t'.repeat`, and the regular-expression classes `\s` and `.`.
- `TextDocument`: the editor document as lines. `positionAt(offset).line`
  and `lineAt(line).text` are modelled here.
- `Semantics`: `getProp`, `getStringValue`, `getType` and `getDesc`.
- `Comments`: the whole-line and end-of-line comment matchers, and
  `getComment`.
- `Presentation`: `boldText` and its inverse, `getLabel` and `getIcon`.
- `Outline`: `getChildren`, `getParent` and `getTreeItem`. A node is
  identified by its path of child indices from the root.
- `Symbols`: `_provideNodeSymbols` and `provideDocumentSymbols`. Reading a
  member of `undefined` makes the source throw; here it is a `Failure`
  that names what was missing.
- `SymbolsExample`: a small sample template written on the second line
  of a document whose first line is empty. Its index is stated in full,
  entry by entry.

Three behaviours of the code are easy to misread:

- A tree item is expanded when a `children` value is present. An empty
  `children` array still counts (`Outline.ExpandableWithoutChildren`).
- A layout object's symbol points at the *value* of its `type` property,
  not at the key.
- A layout object's symbol container is `desc + " " + comment`. The space
  is always there, and nothing like `<layout>` is added.

## Model

| member | source | states |
|---|---|---|
| Text.Trim | src/nodeTreeProvider.ts:239-242 | `trim` keeps a window of the line with only whitespace on either side, and the window neither starts nor ends with whitespace |
| Text.TrimBoundsUnique | src/nodeTreeProvider.ts:239 | `trim` cuts at the only window with blanks around it and non-blank ends |
| Text.Tabs | src/nodeTreeProvider.ts:349 | `'\t'.repeat(n)` is exactly n tab characters |
| Text.NonEmpty | src/nodeTreeProvider.ts:171-172 | `filter(n => !!n)` keeps exactly the non-empty parts |
| Text.NonEmptyAppend | src/nodeTreeProvider.ts:171-172 | the filter keeps order and repeats: a part added at the end is kept at the end exactly when it is non-empty |
| Text.JoinEmptyIff | src/nodeTreeProvider.ts:224-227 | a join of non-empty parts is empty exactly when there are no parts, so the event prefix appears exactly when there are event keys |
| Text.FirstIndex | src/nodeTreeProvider.ts:273-274 | the first position a value occurs at in a list, and no earlier position holds it |
| Text.Dedup | src/nodeTreeProvider.ts:273-274 | `new Set(lines)` iterates every line once and no other value; lines come in the order of their first occurrence, and the first line comes first |
| Text.Dedup3 | src/nodeTreeProvider.ts:273-274 | a `Set` of three values iterates the first, then the second if it differs from the first, then the third if it differs from both |
| TextDocument.LineOf | src/nodeTreeProvider.ts:265-271 | `positionAt(offset).line` is a line of the document that starts at or before the offset; the offset lies before the next line's start, or the line is the last one |
| TextDocument.LineText | src/nodeTreeProvider.ts:237 | `lineAt(line).text` exists exactly for line numbers inside the document |
| Semantics.FindProp | src/nodeTreeProvider.ts:102 | `find` returns the first property with the key, and none when no key matches |
| Semantics.GetProp | src/nodeTreeProvider.ts:100-108 | the first property named `key` decides; non-objects and missing keys give nothing |
| Semantics.GetStringValue | src/nodeTreeProvider.ts:125-128 | a value is returned exactly when the property is a string node |
| Semantics.IsExpressionIff | src/nodeTreeProvider.ts:117 | `^\${.+}$` holds exactly for `${`, a non-empty body with no line terminator, and `}` |
| Semantics.GetType | src/nodeTreeProvider.ts:110-123 | the precedence `type` > `import` > `children` (stack) > `node`; strings are `exp` exactly when they match; everything else is `unknown` |
| Semantics.PlainObjectIsNode | src/nodeTreeProvider.ts:115 | an object with none of the three keys is a `node` |
| Semantics.EventKeys | src/nodeTreeProvider.ts:224 | the event keys are exactly the keys that start with `on-` |
| Semantics.EventKeysAppend | src/nodeTreeProvider.ts:224 | event keys keep declaration order |
| Semantics.EventsPrefix | src/nodeTreeProvider.ts:224-227 | the event prefix is empty exactly when there is no event key; otherwise it is each event key in brackets, joined by spaces, with one space after |
| Semantics.NoEventKeys | src/nodeTreeProvider.ts:224-227 | properties without an `on-` key give no event keys and no prefix |
| Semantics.FirstNonEmpty | src/nodeTreeProvider.ts:177-178 | the `or` of two optional strings picks the first non-empty one |
| Semantics.TypeDesc | src/nodeTreeProvider.ts:166-218 | the description part for every listed type, and the default rule for any other |
| Semantics.NoStyleTypeDesc | src/nodeTreeProvider.ts:166-218 | without `style` and `import` values every type rule gives an empty part |
| Semantics.Quoted | src/nodeTreeProvider.ts:185 | every button part is wrapped in double quotes, in order |
| Semantics.GetDesc | src/nodeTreeProvider.ts:159-234 | a scalar shows its own value; an object shows `[repeat] `, then the events, then the type part, with missing parts left out |
| Semantics.BareObjectDesc | src/nodeTreeProvider.ts:159-234 | an object without `style`, `repeat`, `import` and event keys has an empty description, whatever its type |
| Comments.LineCommentLineIff | src/nodeTreeProvider.ts:238 | `^\s*\/\/` holds exactly when the trimmed line starts with `//` |
| Comments.BlockCommentLineIff | src/nodeTreeProvider.ts:241 | `^\s*\/\*.*\*\/\s*$` holds exactly when the trimmed line is one single-line block comment |
| Comments.FullLineComment | src/nodeTreeProvider.ts:236-245 | a whole-line comment exists exactly when one of the two patterns holds; it is the trimmed line and starts a comment |
| Comments.FirstTail | src/nodeTreeProvider.ts:252 | an unanchored match starts at the leftmost place the pattern fits, and nowhere before |
| Comments.TailStart | src/nodeTreeProvider.ts:252-259 | a line with a `//` comment uses the leftmost one; a line without one uses the leftmost block comment that closes the line; none exists exactly when neither pattern fits |
| Comments.LineTailComment | src/nodeTreeProvider.ts:247-261 | the trailing comment is the rest of the line from where it starts; negative or absent lines have none |
| Comments.LineComment | src/nodeTreeProvider.ts:275-282 | on each line, the comment on the line above wins over the trailing comment |
| Comments.FirstSome | src/nodeTreeProvider.ts:274-283 | the loop returns at the first line with a comment, and no earlier line had one |
| Comments.FirstChildLine | src/nodeTreeProvider.ts:266-268 | a line is added exactly when the node has a non-empty child list; it is the first child's line |
| Comments.TypeLine | src/nodeTreeProvider.ts:269-271 | a line is added exactly when the node has a `type` value; it is that value's line |
| Comments.DedupInOrder | src/nodeTreeProvider.ts:264-273 | the `Set` of the pushed lines is the node's line, then the first child's line if new, then the `type` value's line if new |
| Comments.CandidateLines | src/nodeTreeProvider.ts:264-273 | the lines are the node's line, then the first child's line if new, then the `type` value's line if new; every line appears once and no other line appears |
| Comments.FirstComment | src/nodeTreeProvider.ts:274-284 | no comment exactly when no line in the list has one; a comment on the first line decides |
| Comments.GetComment | src/nodeTreeProvider.ts:263-285 | no comment exactly when no candidate line has one; a comment on the node's own line decides |
| Comments.GetCommentFirstHit | src/nodeTreeProvider.ts:274-284 | the first candidate with a comment decides the result |
| Comments.FullLineBeatsTail | src/nodeTreeProvider.ts:275-278 | along a list of candidate lines, when no earlier line has a comment, a whole-line comment above a line is the result, ahead of that line's trailing comment |
| Comments.NoSlashNoLineComment | src/nodeTreeProvider.ts:236-261 | every recognised comment starts with a slash, so a document without slashes gives no comment on any line |
| Comments.NoSlashNoComment | src/nodeTreeProvider.ts:263-285 | no node of a document without slashes has a comment |
| Presentation.BoldText | src/nodeTreeProvider.ts:287-300 | each lower-case letter moves by 0x1D5EE-0x61 and each upper-case letter by 0x1D5D4-0x41; every other character is kept; the length is unchanged |
| Presentation.UnboldText | src/nodeTreeProvider.ts:291-295 | subtracting the same offsets maps bold letters back |
| Presentation.BoldRoundTrip | src/nodeTreeProvider.ts:287-300 | unbolding undoes bolding on text without bold letters |
| Presentation.BoldIdempotent | src/nodeTreeProvider.ts:287-300 | bolding twice is the same as bolding once |
| Presentation.BoldValue | src/nodeTreeProvider.ts:306 | a non-string type gives an empty head because its loop never runs |
| Presentation.ShownType | src/nodeTreeProvider.ts:306 | the type when it is truthy, else `unknown`; an object without a `type` value shows `import`, `stack` or `node` |
| Presentation.LabelText | src/nodeTreeProvider.ts:306-312 | the label is the bare head exactly when there is neither a non-empty string description nor a comment; otherwise ` ∙ ` and each present part with a space follow |
| Presentation.Label | src/nodeTreeProvider.ts:302-313 | the label starts with the bold shown type |
| Presentation.ObjectLabelBare | src/nodeTreeProvider.ts:304-311 | an object is labelled by its type alone exactly when its description is empty and it has no comment |
| Presentation.NumberLabelHidesValue | src/nodeTreeProvider.ts:304-311 | without a comment, a number's label is `unknown` in bold and its value is not shown |
| Presentation.ValueOrNull | src/nodeTreeProvider.ts:319-320 | `direction && direction.value` is falsy when the property is missing, and it is a string exactly when the property's value is a string node, namely that string |
| Presentation.IconKey | src/nodeTreeProvider.ts:315-323 | a stack is `stack_v` exactly when `style.direction` is vertical or vertical-reverse, and `stack_h` otherwise; any other node uses its shown type |
| Presentation.IconOfTypedObject | src/nodeTreeProvider.ts:316-317 | a string `type` other than stack names its own icon, and an empty one gives `unknown` |
| Outline.OutlineChildren | src/nodeTreeProvider.ts:143-149 | no `children` value gives no children; a `children` array gives its items; a `children` object gives its property pairs, one per property, in order; a scalar value gives nothing at all |
| Outline.GetChildren | src/nodeTreeProvider.ts:32-38 | without an element the root is listed if there is one; with an element, its outline children |
| Outline.Expandable | src/nodeTreeProvider.ts:45 | expanded exactly for objects whose first `children` property has a value |
| Outline.NotExpandableHasNoChildren | src/nodeTreeProvider.ts:45 | a flat item lists no children |
| Outline.ExpandableWithoutChildren | src/nodeTreeProvider.ts:45 | an empty `children` array still expands |
| Outline.GetTreeItem | src/nodeTreeProvider.ts:44-53 | the item is never collapsed and is expanded exactly when expandable; its caption is the node's label (`Presentation.Label`, spelled out by `Presentation.LabelText`) and its icon key is the node's (`Presentation.IconKey`): one of the two stack icons for a stack, the shown type otherwise |
| Outline.OutlineChildAt | src/nodeTreeProvider.ts:143-149 | the j-th outline child is the node at path p+[i,1,j], where i is the `children` property's index |
| Outline.GetParent | src/nodeTreeProvider.ts:40-42 | two `parent` hops: the path minus its last two steps, and none for paths shorter than two |
| Outline.TopLevelValueParent | src/nodeTreeProvider.ts:40-42 | two hops up from a top-level value is the root |
| Outline.ParentOfOutlineChildIsPair | src/nodeTreeProvider.ts:40-42 | for every outline child, the reported parent is the `children` pair, not the object that lists it |
| Outline.ParentCounterexample | src/nodeTreeProvider.ts:40-42 | in `{"children":[{}]}` the inner object's parent is reported as path [0], the pair |
| Outline.OutlineParent | src/nodeTreeProvider.ts:40-42 | three hops: the path minus its last three steps |
| Outline.OutlineParentInverts | src/nodeTreeProvider.ts:32-42 | the corrected parent of every outline child of p is p |
| Outline.OutlineParentOfListed | src/nodeTreeProvider.ts:32-42 | every listed child's corrected parent is the node that listed it, and the two-hop answer is not |
| Symbols.ChildrenSmaller | src/nodeTreeProvider.ts:351-355 | the recursion goes into strictly smaller subtrees |
| Symbols.SymbolOffset | src/nodeTreeProvider.ts:339-348 | the `type` value's offset, else the first pair's offset, else the node's own offset |
| Symbols.SymbolOffsetIsNodeStart | src/nodeTreeProvider.ts:339-348 | the offset a symbol points at always starts a node at most two levels down |
| Symbols.ContainerText | src/nodeTreeProvider.ts:336-338 | the container is the description (empty when missing), one space, then the comment (empty when missing), and nothing else |
| Symbols.HeadSymbol | src/nodeTreeProvider.ts:349 | an object entry whose name is `indent` tabs followed by the type |
| Symbols.HeadSymbolIs | src/nodeTreeProvider.ts:336-349 | a node's entry is fixed by its type, its container text and the offset it points at, for every node and depth |
| Symbols.Append | src/nodeTreeProvider.ts:80-85 | `concat` of two partial results succeeds exactly when both do and keeps their order; the first failure wins |
| Symbols.AppendAssoc | src/nodeTreeProvider.ts:80-85 | repeated `concat` is associative, failures included |
| Symbols.Preorder | src/nodeTreeProvider.ts:351-356 | the node comes first at its depth and everything after it is deeper; a scalar `children` value throws; a node without `children` visits only itself |
| Symbols.PreorderList | src/nodeTreeProvider.ts:352-355 | the siblings' visits start with the first sibling and are all at least at the siblings' depth; they are empty exactly when there are no siblings |
| Symbols.PreorderIff | src/nodeTreeProvider.ts:351-356 | a subtree is indexed exactly when the node has a child list and its children are indexed; its visits are the node, then the children's visits one level deeper |
| Symbols.PreorderListIff | src/nodeTreeProvider.ts:352-355 | the siblings are indexed exactly when every sibling's subtree is |
| Symbols.PreorderListSplit | src/nodeTreeProvider.ts:352-355 | indexing two runs of siblings is indexing the first run, then the second |
| Symbols.PreorderListSegments | src/nodeTreeProvider.ts:352-355 | depth first: the siblings before the k-th, then the whole subtree of the k-th, then the siblings after it |
| Symbols.OwnDepth | src/nodeTreeProvider.ts:349-355 | the only node a subtree visits at its own depth is its root |
| Symbols.SiblingsAtTheirDepth | src/nodeTreeProvider.ts:352-355 | the siblings' visits at the siblings' depth are exactly the siblings, in order |
| Symbols.ChildrenOneLevelDown | src/nodeTreeProvider.ts:351-355 | the visits one level below a node are exactly its outline children, in the order the outline lists them |
| Symbols.PreorderShift | src/nodeTreeProvider.ts:354 | starting one level deeper shifts every visit by one and keeps failures |
| Symbols.NodeSymbols | src/nodeTreeProvider.ts:332-358 | succeeds exactly when the pre-order visit does; the entries are the head entries of the visits, in visit order, the node's own first; every name has at least `indent` tabs and every later name at least one more |
| Symbols.LeafSymbols | src/nodeTreeProvider.ts:349-351 | a node without `children` gives its own entry alone |
| Symbols.NodeIndentShift | src/nodeTreeProvider.ts:349-354 | indexing one level deeper adds exactly one tab to every name and changes nothing else |
| Symbols.BareStringLayout | src/nodeTreeProvider.ts:340-349 | a string layout still gives one entry and does not throw |
| Symbols.KeySymbol | src/nodeTreeProvider.ts:72-75 | a top-level key's entry is a property under `<template>`; a string key gives its own text at its own offset, and a key that is a container node is named `undefined` |
| Symbols.FieldSymbols | src/nodeTreeProvider.ts:80-82 | one field per table member, named tab plus its key, under `<section>`, at the key's offset; it throws exactly when some member has no key |
| Symbols.KindOf | src/nodeTreeProvider.ts:76-87 | `state`, `styles` and `data` are tables, `layout` is the layout, and every other key falls through the switch |
| Symbols.ValueSymbols | src/nodeTreeProvider.ts:80-85 | the entries under a member's value are never property entries |
| Symbols.ValueCases | src/nodeTreeProvider.ts:80-85 | a table value without a child list throws; a table gives its fields; the layout gives its objects from depth 0 |
| Symbols.MemberSymbols | src/nodeTreeProvider.ts:72-87 | no key throws; a plain key gives its property entry alone; a table or layout key without a value throws; otherwise the key's entry, then the entries under the value |
| Symbols.EntrySymbols | src/nodeTreeProvider.ts:72-87 | a member without a child list throws; otherwise its key and value nodes decide; on success the key's property entry comes first and no property entry follows |
| Symbols.EntryCases | src/nodeTreeProvider.ts:72-87 | every case of one member: no key, a plain key, a table or layout key with no value, a table value without a child list, a table's fields, the layout's objects |
| Symbols.EntriesSymbols | src/nodeTreeProvider.ts:71-88 | the members' entries in order, the first failure winning; the index succeeds exactly when every member's entries do |
| Symbols.EntriesSymbolsSplit | src/nodeTreeProvider.ts:71-88 | indexing two runs of members is indexing the first, then the second |
| Symbols.DocumentSymbols | src/nodeTreeProvider.ts:62-91 | a template without a child list throws; an empty object gives an empty index; otherwise the index succeeds exactly when every member's entries do |
| Symbols.DocumentSymbolsAppend | src/nodeTreeProvider.ts:69-90 | one more top-level member appends its entries after the index of the template without it |
| Symbols.EntryPropertyNames | src/nodeTreeProvider.ts:73-75 | each member contributes exactly one property entry, its key |
| Symbols.EntriesPropertyNames | src/nodeTreeProvider.ts:71-75 | the property entries are the members' key texts, in order |
| Symbols.PropertyEntriesAreKeys | src/nodeTreeProvider.ts:71-75 | for a template object, the property entries of an index that succeeds are exactly its keys, each once, in document order |
| SymbolsExample.SampleNoSlash | src/nodeTreeProvider.ts:236-261 | no line of the two-line sample document holds a slash |
| SymbolsExample.SecondLineOf | src/nodeTreeProvider.ts:265-271 | below an empty first line, every offset past its line break is on line 1 |
| SymbolsExample.SampleStackLines | src/nodeTreeProvider.ts:264-275 | the stack object's comment is searched on line 1 only, so the line above it is line 0 and no line outside the document is read |
| SymbolsExample.StackLayoutDesc | src/nodeTreeProvider.ts:167-173 | a stack without style has an empty description |
| SymbolsExample.StackLayoutEntry | src/nodeTreeProvider.ts:338-349 | the sample stack's entry is named `stack` and points at its `type` value, in any document |
| SymbolsExample.StateFields | src/nodeTreeProvider.ts:80-82 | the sample state table gives `\ta` and `\tb` under `<state>` |
| SymbolsExample.StateEntry | src/nodeTreeProvider.ts:77-83 | the sample `state` member gives its key and its two fields |
| SymbolsExample.LayoutCase | src/nodeTreeProvider.ts:84-86 | a `layout` member gives its key, then the layout's objects from depth 0 |
| SymbolsExample.LayoutEntry | src/nodeTreeProvider.ts:84-86 | the sample `layout` member gives its key and the stack's entry |
| SymbolsExample.SampleTemplateIndex | src/nodeTreeProvider.ts:62-91 | in any document, the sample template's index is `state`, `\ta`, `\tb`, `layout`, then the stack's entry |
| SymbolsExample.SampleDocumentIndex | src/nodeTreeProvider.ts:62-91 | in the sample document, with the template on its second line, the index is `state`, `\ta`, `\tb`, `layout`, `stack`, the stack's container being a lone space; every offset is the token's offset in the document |
| SymbolsExample.SampleSymbolsListed | src/nodeTreeProvider.ts:62-91 | the five entries of the sample index, with kinds, containers and offsets spelled out |

## Left out

- The editor host is not modelled: tree items, symbol information, locations, ranges, event emitters and the active-editor lookup in `parseTree`. Only the data these carry is modelled.
- `select`, `onDocumentChanged` and `update` are left out: they only move the editor selection or refresh the view.
- The item command of `getTreeItem` is left out. It only packs the node's offset range for the editor.
- `toArrayValueNode` is left out because nothing in the file calls it.
- The JSON-with-comments parser and `parseJson` are left out. The model starts from the tree they produce, and logging of parse errors is output only.
- The icon paths are left out. `getIcon` joins the icon key into two media paths through the extension context, and only the key is modelled (`Presentation.IconKey`).
- The regular-expression engine is replaced by predicates that say what each of the five patterns accepts: the expression pattern, the two whole-line comment patterns and the two trailing comment patterns.
- `positionAt` is modelled over explicit lines with line-break lengths. The conversion from the document's text to lines is not modelled.
- Comments.FullLineComment: for a node on line 0 the source asks for the whole-line comment of line -1, and the editor's `lineAt(-1)` raises an error there. The model reads a line outside the document as holding no comment, the same way `_getLineTailComment` explicitly answers null for `line < 0`. So for a layout object or an outline node that starts on line 0, the first line `getComment` tries, the model gives an index entry or a label where the source raises an error; the sample document keeps its template off line 0 for this reason (`SymbolsExample.SampleStackLines`).
- The editor's checks on symbol information are left out, such as refusing an empty name; the host enforces them.
- Strings are sequences of code points. JavaScript's `length` and `charCodeAt` work on UTF-16 units, and in `boldText` each unit `charCodeAt` returns is handed to `String.fromCodePoint`, so a surrogate pair passes through unchanged. The model walks code points instead, which gives the same text: characters outside the basic plane are kept either way.
- Numbers are kept as the text `String(value)` gives; the model does no number arithmetic.
- Node lengths are not modelled because only the item command uses them.
- Presentation.Label: its contract only fixes the bold head. The rest of the label is stated by `Presentation.LabelText` and `Presentation.ObjectLabelBare`.

## Findings

| source | as written | input that shows it | evidently intended | confidence | as-written member | corrected member |
|---|---|---|---|---|---|---|
| src/nodeTreeProvider.ts:40-42 | `getParent` returns `node.parent.parent`. For a node listed by `getChildren`, that is the `children` property pair, a node the outline never shows. | `{"children":[{}]}`: the inner object sits at path [0,1,0], and its reported parent is path [0], the pair (`Outline.ParentCounterexample`, and `Outline.ParentOfOutlineChildIsPair` for every outline child) | the parent is the object whose `children` array lists the node, three hops up, so that `getParent` inverts `getChildren` (`Outline.OutlineParentInverts`) | not executed | Outline.GetParent | Outline.OutlineParent |
