/**
 * `remarkComponentCodeBlock`: replaces every fenced code block tagged
 * `component-json` with a `ComponentCodeBlock` node carrying either the
 * parsed body or a placeholder key; and the `ComponentCodeBlock`
 * component's choice of what to render for such a node.
 *
 * `JSON.parse` is the parameter `parse`, a partial function: `None` is a
 * thrown SyntaxError. Its argument is first converted to a string, as
 * `JSON.parse` does (so a `null` meta is parsed as the text "null").
 */
module ComponentCodeBlock {
  import opened Wrappers
  import opened Js

  /** The markdown syntax tree, as far as the transformer distinguishes nodes. */
  datatype MdNode =
    | Parent(kind: string, children: seq<MdNode>)   // root, blockquote, list, listItem, ...
    | Code(lang: Option<string>, meta: Value, value: string)
    | Leaf(kind: string, value: string)             // text, inlineCode, html, ...
    | Block(hProperties: Value)                     // type "ComponentCodeBlock", data.hName "ComponentCodeBlock"

  type Parser = string -> Option<Value>

  const DirectiveLang := "component-json"
  const DefaultPlaceholderKey := "vue-mdr-default-component-placeholder-key"

  function PlaceholderBlock(key: Value): MdNode {
    Block(Obj(map["placeholder" := key]))
  }

  /** `children.splice(index, 1, x)`: the one slot changes, the length and every sibling stay. */
  function Splice(children: seq<MdNode>, index: nat, x: MdNode): (r: seq<MdNode>)
    requires index < |children|
    ensures |r| == |children| && r[index] == x
    ensures forall j :: 0 <= j < |children| && j != index ==> r[j] == children[j]
  {
    children[..index] + [x] + children[index + 1..]
  }

  /** How a code node is resolved. */
  datatype Resolution =
    | Untouched                    // not a directive, or an unparsable meta that is present
    | DefaultPlaceholder
    | KeyedPlaceholder(key: Value) // the key is `meta.placeholder`, possibly `undefined`
    | Resolved(data: Value)

  /**
   * The decision table: a parsed meta and a parsed body resolve the
   * directive; a parsed meta that is not `null` with a body that does not
   * parse gives a placeholder keyed by `meta.placeholder`; otherwise an
   * absent or empty meta gives the default placeholder and a present one
   * leaves the code node as it was.
   */
  function Decide(node: MdNode, parse: Parser): Resolution
    requires node.Code?
  {
    if node.lang != Some(DirectiveLang) then Untouched
    else
      var meta := parse(ToJsString(node.meta));
      var data := parse(node.value);
      if meta.Some? && data.Some? then Resolved(data.value)
      else if meta.Some? && Member(meta.value, "placeholder").Some? then
        KeyedPlaceholder(Member(meta.value, "placeholder").value)
      else if Truthy(node.meta) then Untouched
      else DefaultPlaceholder
  }

  function Replacement(node: MdNode, res: Resolution): MdNode {
    match res
    case Untouched => node
    case DefaultPlaceholder => PlaceholderBlock(Str(DefaultPlaceholderKey))
    case KeyedPlaceholder(k) => PlaceholderBlock(k)
    case Resolved(d) => Block(d)
  }

  /**
   * The `visit` callback on the code node at `children[index]`, splice by
   * splice as the transformer performs them: an absent meta first puts the
   * default placeholder in the slot; then a parsed meta and body replace it
   * with the resolved node, and a parsed meta with a bad body with a keyed
   * placeholder. Every exception (a bad meta, reading `placeholder` of a
   * `null` meta) is swallowed, keeping whatever the slot holds by then.
   */
  function CodeVisitor(children: seq<MdNode>, index: nat, parse: Parser): (r: seq<MdNode>)
    requires index < |children| && children[index].Code?
    ensures r == children[index := Replacement(children[index], Decide(children[index], parse))]
  {
    var node := children[index];
    if node.lang != Some(DirectiveLang) then children
    else
      var afterMetaCheck :=
        if !Truthy(node.meta) then Splice(children, index, PlaceholderBlock(Str(DefaultPlaceholderKey)))
        else children;
      match parse(ToJsString(node.meta))
      case None => afterMetaCheck
      case Some(meta) =>
        match parse(node.value)
        case Some(data) => Splice(afterMetaCheck, index, Block(data))
        case None =>
          match Member(meta, "placeholder")
          case None => afterMetaCheck
          case Some(key) => Splice(afterMetaCheck, index, PlaceholderBlock(key))
  }

  /** What the transformer makes of a node: code is resolved, parents have their children visited. */
  function Transform(n: MdNode, parse: Parser): (r: MdNode)
    ensures n.Code? ==> r == Replacement(n, Decide(n, parse))
    ensures n.Leaf? || n.Block? ==> r == n
    ensures n.Parent? ==> r.Parent? && r.kind == n.kind && |r.children| == |n.children|
    decreases n, 1
  {
    match n
    case Parent(k, c) => Parent(k, VisitChildren(c, c, 0, parse))
    case Code(_, _, _) => Replacement(n, Decide(n, parse))
    case _ => n
  }

  /**
   * `visit` over one parent's live `children`, from `index` on: each code
   * child runs the callback on the array, each parent child is descended
   * into. `orig` is the array as it was before the walk reached it.
   */
  function VisitChildren(orig: seq<MdNode>, children: seq<MdNode>, index: nat, parse: Parser): (r: seq<MdNode>)
    requires |children| == |orig| && index <= |orig|
    requires forall j :: index <= j < |orig| ==> children[j] == orig[j]
    ensures |r| == |orig|
    ensures forall j :: 0 <= j < index ==> r[j] == children[j]
    ensures forall j :: index <= j < |orig| ==> r[j] == Transform(orig[j], parse)
    decreases orig, |orig| - index
  {
    if index == |orig| then children
    else
      var next :=
        match orig[index]
        case Code(_, _, _) => CodeVisitor(children, index, parse)
        case Parent(_, _) => children[index := Transform(orig[index], parse)]
        case _ => children;
      VisitChildren(orig, next, index + 1, parse)
  }

  /** The transformer, run on the document root. */
  function RemarkComponentCodeBlock(root: MdNode, parse: Parser): MdNode
    requires root.Parent?
  {
    Transform(root, parse)
  }

  /**
   * The rewrite happens slot by slot: the root keeps its kind and its number
   * of children, and each child is replaced by its own transform, in place.
   */
  lemma TransformInPlace(root: MdNode, parse: Parser, j: nat)
    requires root.Parent? && j < |root.children|
    ensures RemarkComponentCodeBlock(root, parse).kind == root.kind
    ensures |RemarkComponentCodeBlock(root, parse).children| == |root.children|
    ensures RemarkComponentCodeBlock(root, parse).children[j] == Transform(root.children[j], parse)
  {
  }

  /** Only `component-json` code nodes are replaced; every other node keeps its kind and contents. */
  lemma OnlyDirectivesReplaced(n: MdNode, parse: Parser)
    requires !n.Parent?
    requires Transform(n, parse) != n
    ensures n.Code? && n.lang == Some(DirectiveLang)
    ensures Transform(n, parse).Block?
  {
  }

  /** Running the transformer on its own output changes nothing. */
  lemma {:induction false} TransformIdempotent(n: MdNode, parse: Parser)
    ensures Transform(Transform(n, parse), parse) == Transform(n, parse)
    decreases n
  {
    match n
    case Parent(k, c) =>
      var once := Transform(n, parse);
      var twice := Transform(once, parse);
      forall j | 0 <= j < |c| ensures twice.children[j] == once.children[j] {
        TransformIdempotent(c[j], parse);
      }
    case _ =>
  }

  /** The standard `JSON.parse` facts the scenarios rely on. */
  predicate ParsesLikeJson(parse: Parser) {
    parse("null") == Some(Null) && parse("undefined") == None && parse("") == None
  }

  /**
   * A directive whose meta is absent or empty shows the default placeholder
   * while its body does not parse. An absent meta is `null` in a parsed
   * tree; since `JSON.parse(null)` yields `null`, such a directive is
   * resolved once its body parses. With an `undefined` or empty meta it
   * keeps the default placeholder.
   */
  lemma MissingMeta(lang: Option<string>, meta: Value, body: string, parse: Parser)
    requires ParsesLikeJson(parse)
    requires lang == Some(DirectiveLang)
    requires meta == Null || meta == Undefined || meta == Str("")
    ensures parse(body).None? || meta != Null ==>
      Transform(Code(lang, meta, body), parse) == PlaceholderBlock(Str(DefaultPlaceholderKey))
    ensures parse(body).Some? && meta == Null ==>
      Transform(Code(lang, meta, body), parse) == Block(parse(body).value)
  {
  }

  /** A parsed meta and body: the node carries exactly the parsed body. */
  lemma ParsedDirective(meta: Value, body: string, parse: Parser)
    requires parse(ToJsString(meta)).Some? && parse(body).Some?
    ensures Transform(Code(Some(DirectiveLang), meta, body), parse) == Block(parse(body).value)
  {
  }

  /**
   * A parsed meta and a body that does not parse: a placeholder keyed by
   * `meta.placeholder`, with no fallback to the default key; when the
   * parsed meta is `null` (or `undefined`), reading its key throws and the node keeps what
   * the meta check put there.
   */
  lemma UnparsedBody(meta: Value, body: string, parse: Parser)
    requires parse(ToJsString(meta)).Some? && parse(body).None?
    ensures !parse(ToJsString(meta)).value.Null? && !parse(ToJsString(meta)).value.Undefined? ==>
      Transform(Code(Some(DirectiveLang), meta, body), parse) ==
        PlaceholderBlock(Member(parse(ToJsString(meta)).value, "placeholder").value)
    ensures parse(ToJsString(meta)).value.Null? || parse(ToJsString(meta)).value.Undefined? ==>
      Transform(Code(Some(DirectiveLang), meta, body), parse) ==
        if Truthy(meta) then Code(Some(DirectiveLang), meta, body) else PlaceholderBlock(Str(DefaultPlaceholderKey))
  {
  }

  /** A present meta that does not parse leaves the code node as it is; nothing is thrown. */
  lemma UnparsableMeta(meta: Value, body: string, parse: Parser)
    requires Truthy(meta) && parse(ToJsString(meta)).None?
    ensures Transform(Code(Some(DirectiveLang), meta, body), parse) == Code(Some(DirectiveLang), meta, body)
  {
  }

  /** `{"placeholder":"custom"}` with a truncated body gives the placeholder keyed "custom". */
  lemma CustomPlaceholderScenario(parse: Parser)
    requires parse("{\"placeholder\":\"custom\"}") == Some(Obj(map["placeholder" := Str("custom")]))
    requires parse("{\"type\":\"widget\",\"props\":{") == None
    ensures Transform(Code(Some(DirectiveLang), Str("{\"placeholder\":\"custom\"}"), "{\"type\":\"widget\",\"props\":{"), parse)
      == PlaceholderBlock(Str("custom"))
  {
  }

  /** What the `ComponentCodeBlock` component renders. */
  datatype Component = Component(name: string)
  datatype Choice =
    | Registered(entry: Component)                      // componentsMap[placeholder]
    | BuiltinPlaceholder                                 // the built-in `Placeholder`
    | Wrapped(component: Option<Component>, props: Value) // ComponentWrapper with componentsMap[type] and props

  function Get(properties: map<string, Value>, key: string): Value {
    if key in properties then properties[key] else Undefined
  }

  /** `componentsMap[key]`, the key converted to a string; `None` is `undefined`. */
  function Lookup(componentsMap: map<string, Component>, key: Value): Option<Component> {
    var k := ToJsString(key);
    if k in componentsMap then Some(componentsMap[k]) else None
  }

  /**
   * A truthy `placeholder` renders the registry entry of that name, or the
   * built-in placeholder when there is none; otherwise the registry entry
   * named by `type` is rendered with `props`.
   */
  function SelectComponent(properties: map<string, Value>, componentsMap: map<string, Component>): (c: Choice)
    ensures Truthy(Get(properties, "placeholder")) ==> c.Registered? || c.BuiltinPlaceholder?
    ensures c.Registered? ==> Lookup(componentsMap, Get(properties, "placeholder")) == Some(c.entry)
    ensures c.BuiltinPlaceholder? ==> Lookup(componentsMap, Get(properties, "placeholder")).None?
    ensures !Truthy(Get(properties, "placeholder")) ==>
      c == Wrapped(Lookup(componentsMap, Get(properties, "type")), Get(properties, "props"))
  {
    var placeholder := Get(properties, "placeholder");
    if Truthy(placeholder) then
      var entry := Lookup(componentsMap, placeholder);
      if entry.Some? then Registered(entry.value) else BuiltinPlaceholder
    else
      Wrapped(Lookup(componentsMap, Get(properties, "type")), Get(properties, "props"))
  }

  /** The properties of the element a `ComponentCodeBlock` node becomes: the object it carries. */
  function PropertiesOf(n: MdNode): map<string, Value>
    requires n.Block?
  {
    if n.hProperties.Obj? then n.hProperties.fields else map[]
  }

  /** A directive shown with the default placeholder never reaches the wrapper. */
  lemma DefaultPlaceholderSelected(componentsMap: map<string, Component>)
    ensures
      var c := SelectComponent(PropertiesOf(PlaceholderBlock(Str(DefaultPlaceholderKey))), componentsMap);
      c == if DefaultPlaceholderKey in componentsMap then Registered(componentsMap[DefaultPlaceholderKey])
           else BuiltinPlaceholder
  {
  }

  /** A resolved body with `type` and `props` and no placeholder renders that entry with those props. */
  lemma ResolvedSelected(kind: string, props: Value, componentsMap: map<string, Component>)
    ensures SelectComponent(PropertiesOf(Block(Obj(map["type" := Str(kind), "props" := props]))), componentsMap)
      == Wrapped(if kind in componentsMap then Some(componentsMap[kind]) else None, props)
  {
  }

  /**
   * A meta without a `placeholder` key and a body that does not parse yield
   * `placeholder: undefined`, which is falsy: the component then renders the
   * wrapper for `componentsMap["undefined"]` with `undefined` props rather
   * than a placeholder.
   */
  lemma UndefinedKeyReachesWrapper(metaText: string, body: string, parse: Parser, componentsMap: map<string, Component>)
    requires parse(metaText).Some? && parse(metaText).value.Obj?
    requires "placeholder" !in parse(metaText).value.fields
    requires parse(body).None?
    ensures Transform(Code(Some(DirectiveLang), Str(metaText), body), parse) == PlaceholderBlock(Undefined)
    ensures SelectComponent(PropertiesOf(PlaceholderBlock(Undefined)), componentsMap)
      == Wrapped(Lookup(componentsMap, Undefined), Undefined)
  {
  }
}
