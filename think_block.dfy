/**
 * The `ThinkBlock` component: it turns the `think` element's HTML tree into
 * render output (`renderHtmlAstNode`) and hands it, together with the
 * element's `generated` flag as `isThinking`, to the configured renderer.
 */
module ThinkBlock {
  import opened Wrappers
  import opened Hast
  import PassGenerated
  import JsString

  /** What `renderHtmlAstNode` returns: a string, a virtual node from `h`, or `null`. */
  datatype VNode =
    | VText(text: string)
    | VElement(tag: string, props: Props, children: seq<VNode>)
    | VNull

  /**
   * A text node becomes its value; an element keeps its tag and its
   * properties (an empty object when absent) and has its children rendered
   * one-to-one and in order; anything else becomes `null`.
   */
  function RenderHtmlAstNode(n: HNode): (r: VNode)
    ensures n.Text? ==> r == VText(n.value)
    ensures n.Element? ==>
      r.VElement? && r.tag == n.tagName && r.props == n.properties.GetOr(map[]) &&
      |r.children| == |n.children| &&
      forall i :: 0 <= i < |n.children| ==> r.children[i] == RenderHtmlAstNode(n.children[i])
    ensures !n.Text? && !n.Element? ==> r == VNull
    decreases n, 1
  {
    match n
    case Text(v) => VText(v)
    case Element(t, p, ks, _) => VElement(t, p.GetOr(map[]), RenderAll(ks))
    case _ => VNull
  }

  function RenderAll(ns: seq<HNode>): (r: seq<VNode>)
    ensures |r| == |ns|
    ensures forall i :: 0 <= i < |ns| ==> r[i] == RenderHtmlAstNode(ns[i])
    decreases ns, 0
  {
    if ns == [] then [] else [RenderHtmlAstNode(ns[0])] + RenderAll(ns[1..])
  }

  /** Output without `null` holes: everything in it came from a text or an element node. */
  predicate NullFree(v: VNode) {
    match v
    case VText(_) => true
    case VElement(_, _, cs) => forall i :: 0 <= i < |cs| ==> NullFree(cs[i])
    case VNull => false
  }

  /** A tree of text and element nodes only. */
  predicate TextAndElements(n: HNode) {
    match n
    case Text(_) => true
    case Element(_, _, ks, _) => forall i :: 0 <= i < |ks| ==> TextAndElements(ks[i])
    case _ => false
  }

  /** A text-and-element tree whose elements all carry a properties object and no position. */
  predicate Plain(n: HNode) {
    match n
    case Text(_) => true
    case Element(_, p, ks, pos) => p.Some? && pos.None? && forall i :: 0 <= i < |ks| ==> Plain(ks[i])
    case _ => false
  }

  /** The tree with every position dropped and every absent properties object made `{}`. */
  function Strip(n: HNode): (r: HNode)
    ensures n.Element? ==>
      r.Element? && r.tagName == n.tagName && r.properties == Some(n.properties.GetOr(map[])) &&
      r.position.None? && |r.children| == |n.children| &&
      forall i :: 0 <= i < |n.children| ==> r.children[i] == Strip(n.children[i])
    ensures !n.Element? ==> r == n
    decreases n, 1
  {
    match n
    case Element(t, p, ks, _) => Element(t, Some(p.GetOr(map[])), StripAll(ks), None)
    case _ => n
  }

  function StripAll(ns: seq<HNode>): (r: seq<HNode>)
    ensures |r| == |ns|
    ensures forall i :: 0 <= i < |ns| ==> r[i] == Strip(ns[i])
    decreases ns, 0
  {
    if ns == [] then [] else [Strip(ns[0])] + StripAll(ns[1..])
  }

  /** The HTML tree an output tree describes. */
  function ToHast(v: VNode): (n: HNode)
    ensures v.VText? ==> n == Text(v.text)
    ensures v.VElement? ==> n.Element? && n.tagName == v.tag && n.properties == Some(v.props) && |n.children| == |v.children|
    decreases v, 1
  {
    match v
    case VText(s) => Text(s)
    case VElement(t, p, cs) => Element(t, Some(p), ToHastAll(cs), None)
    case VNull => Other("comment", "")
  }

  function ToHastAll(vs: seq<VNode>): (r: seq<HNode>)
    ensures |r| == |vs|
    decreases vs, 0
  {
    if vs == [] then [] else [ToHast(vs[0])] + ToHastAll(vs[1..])
  }

  lemma ToHastAllAt(vs: seq<VNode>, i: nat)
    requires i < |vs|
    ensures ToHastAll(vs)[i] == ToHast(vs[i])
  {
    if i > 0 { ToHastAllAt(vs[1..], i - 1); }
  }

  /**
   * Rendering a text-and-element tree loses exactly the positions and the
   * difference between absent and empty properties: the output has no
   * `null` hole and reads back to the stripped tree.
   */
  lemma {:induction false} RenderRoundTrip(n: HNode)
    requires TextAndElements(n)
    ensures NullFree(RenderHtmlAstNode(n))
    ensures ToHast(RenderHtmlAstNode(n)) == Strip(n)
    decreases n
  {
    match n
    case Text(_) =>
    case Element(t, p, ks, pos) =>
      var r := RenderHtmlAstNode(n);
      forall i | 0 <= i < |ks| ensures NullFree(r.children[i]) && ToHastAll(r.children)[i] == Strip(ks[i]) {
        RenderRoundTrip(ks[i]);
        ToHastAllAt(r.children, i);
      }
      assert ToHastAll(r.children) == StripAll(ks);
  }

  /** Stripping changes a text-and-element tree exactly when it is not plain, so plain trees read back as they are. */
  lemma {:induction false} StripKeepsPlain(n: HNode)
    requires TextAndElements(n)
    ensures Strip(n) == n <==> Plain(n)
    decreases n
  {
    match n
    case Text(_) =>
    case Element(t, p, ks, pos) =>
      forall i | 0 <= i < |ks| ensures Strip(ks[i]) == ks[i] <==> Plain(ks[i]) {
        StripKeepsPlain(ks[i]);
      }
      if Strip(n) == n {
        forall i | 0 <= i < |ks| ensures Plain(ks[i]) {
          assert Strip(n).children[i] == Strip(ks[i]);
        }
      }
  }

  /** Every null-free output tree is the rendering of some HTML tree. */
  lemma {:induction false} RenderOnto(v: VNode)
    requires NullFree(v)
    ensures RenderHtmlAstNode(ToHast(v)) == v
    decreases v
  {
    match v
    case VText(_) =>
    case VElement(t, p, cs) =>
      var n := ToHast(v);
      forall i | 0 <= i < |cs| ensures RenderHtmlAstNode(n.children[i]) == cs[i] {
        ToHastAllAt(cs, i);
        RenderOnto(cs[i]);
      }
      assert RenderAll(n.children) == cs;
  }

  /** A Vue component the think block can be rendered with. */
  datatype Component = ThinkBlockComponent | CustomRenderer(name: string)

  /** `proxyProps.thinkBlockRenderer || ThinkBlock`: never empty. */
  function ThinkBlockRenderer(configured: Option<Component>): (r: Option<Component>)
    ensures r.Some?
    ensures configured.Some? ==> r == configured
    ensures configured.None? ==> r == Some(ThinkBlockComponent)
  {
    if configured.Some? then configured else Some(ThinkBlockComponent)
  }

  /** What the render function returns. */
  datatype ThinkView =
    | RendererCall(renderer: Component, isThinking: bool, thinkContent: VNode)
    | BareContent(content: VNode)

  /**
   * The render function. `generated` is the optional Boolean prop, which
   * Vue defaults to `false`. Because the renderer is never empty, the branch
   * that returns the bare content is never taken.
   */
  function RenderThinkBlock(node: HNode, generated: Option<bool>, configured: Option<Component>): (v: ThinkView)
    ensures v.RendererCall?
    ensures v.renderer == (if configured.Some? then configured.value else ThinkBlockComponent)
    ensures v.isThinking == (generated == Some(true))
    ensures v.thinkContent == RenderHtmlAstNode(node)
  {
    var content := RenderHtmlAstNode(node);
    var renderer := ThinkBlockRenderer(configured);
    if renderer.Some? then RendererCall(renderer.value, generated.GetOr(false), content)
    else BareContent(content)
  }

  /**
   * Across the pipeline: a think element whose `generated` flag the
   * completion pass computed from its source slice is shown as "thinking"
   * exactly while that slice lacks `</think>`.
   */
  lemma ThinkingWhileOpen(slice: string, node: HNode, configured: Option<Component>)
    ensures RenderThinkBlock(node, Some(PassGenerated.ThinkGenerated(slice)), configured).isThinking <==>
      !JsString.Occurs(slice, PassGenerated.ThinkClose)
  {
  }
}
