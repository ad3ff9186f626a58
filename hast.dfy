/**
 * The HTML syntax tree the rehype plugins walk, and the
 * `visit(tree, 'element', callback)` traversal they share.
 *
 * Both rehype callbacks read only an element's tag name and source
 * position, and either leave the element alone, or set one key of its
 * properties (creating the properties object when absent), or throw.
 */
module Hast {
  import opened Wrappers
  import opened Js

  /** `position.start.offset` and `position.end.offset` of a node. */
  datatype Span = Span(start: nat, end: nat)

  type Props = map<string, Value>

  datatype HNode =
    | Root(children: seq<HNode>)
    | Element(tagName: string, properties: Option<Props>, children: seq<HNode>, position: Option<Span>)
    | Text(value: string)
    | Other(kind: string, value: string)   // comment, doctype, raw

  // An element whose `children` is absent is represented with an empty
  // list: `visit` and the think-block renderer treat the two alike.

  /** What a visit callback does to the element it is given. */
  datatype Update =
    | Keep
    | SetProp(key: string, value: Value)   // node.properties = node.properties || {}; node.properties[key] = value
    | Throw

  type Callback = (string, Option<Span>) -> Update

  /** The properties an element ends with after update `u`. */
  function Applied(u: Update, props: Option<Props>): (r: Option<Props>)
    ensures !u.SetProp? ==> r == props
    ensures u.SetProp? ==> r.Some? && u.key in r.value && r.value[u.key] == u.value
    ensures u.SetProp? ==> r.value.Keys == props.GetOr(map[]).Keys + {u.key}
    ensures u.SetProp? ==> forall k :: k in props.GetOr(map[]) && k != u.key ==> r.value[k] == props.value[k]
  {
    match u
    case SetProp(k, v) => Some(props.GetOr(map[])[k := v])
    case _ => props
  }

  /**
   * `visit(n, 'element', cb)`: the callback runs on every element in
   * pre-order; `None` when some callback throws (the transformer fails).
   */
  function Visit(n: HNode, cb: Callback): Option<HNode>
    decreases n, 1
  {
    match n
    case Root(ks) =>
      var r := VisitAll(ks, cb);
      if r.None? then None else Some(Root(r.value))
    case Element(t, p, ks, pos) =>
      var u := cb(t, pos);
      if u.Throw? then None
      else
        var r := VisitAll(ks, cb);
        if r.None? then None else Some(Element(t, Applied(u, p), r.value, pos))
    case _ => Some(n)
  }

  function VisitAll(ns: seq<HNode>, cb: Callback): (r: Option<seq<HNode>>)
    ensures r.Some? ==> |r.value| == |ns|
    decreases ns, 0
  {
    if ns == [] then Some([])
    else
      var h := Visit(ns[0], cb);
      var t := VisitAll(ns[1..], cb);
      if h.None? || t.None? then None else Some([h.value] + t.value)
  }

  /** What a callback sees of an element, and the properties it carries. */
  datatype Head = Head(tagName: string, properties: Option<Props>, position: Option<Span>)

  /** The elements of a tree in the order `visit` reaches them (pre-order). */
  function Heads(n: HNode): seq<Head>
    decreases n, 1
  {
    match n
    case Root(ks) => HeadsAll(ks)
    case Element(t, p, ks, pos) => [Head(t, p, pos)] + HeadsAll(ks)
    case _ => []
  }

  function HeadsAll(ns: seq<HNode>): seq<Head>
    decreases ns, 0
  {
    if ns == [] then [] else Heads(ns[0]) + HeadsAll(ns[1..])
  }

  /** The tree with every element's properties forgotten: its shape, tags, positions and texts. */
  function Erase(n: HNode): HNode
    decreases n, 1
  {
    match n
    case Root(ks) => Root(EraseAll(ks))
    case Element(t, _, ks, pos) => Element(t, None, EraseAll(ks), pos)
    case _ => n
  }

  function EraseAll(ns: seq<HNode>): (r: seq<HNode>)
    ensures |r| == |ns|
    decreases ns, 0
  {
    if ns == [] then [] else [Erase(ns[0])] + EraseAll(ns[1..])
  }

  /** A head after its callback ran. */
  function UpdateHead(h: Head, cb: Callback): Head {
    Head(h.tagName, Applied(cb(h.tagName, h.position), h.properties), h.position)
  }

  function UpdateHeads(hs: seq<Head>, cb: Callback): (r: seq<Head>)
    ensures |r| == |hs|
    ensures forall i :: 0 <= i < |hs| ==> r[i] == UpdateHead(hs[i], cb)
  {
    seq(|hs|, i requires 0 <= i < |hs| => UpdateHead(hs[i], cb))
  }

  /** Some callback among `hs` throws. */
  ghost predicate SomeThrows(hs: seq<Head>, cb: Callback) {
    exists i :: 0 <= i < |hs| && cb(hs[i].tagName, hs[i].position).Throw?
  }

  lemma UpdateHeadsConcat(a: seq<Head>, b: seq<Head>, cb: Callback)
    ensures UpdateHeads(a + b, cb) == UpdateHeads(a, cb) + UpdateHeads(b, cb)
  {
  }

  lemma SomeThrowsConcat(a: seq<Head>, b: seq<Head>, cb: Callback)
    ensures SomeThrows(a + b, cb) <==> SomeThrows(a, cb) || SomeThrows(b, cb)
  {
    if SomeThrows(a + b, cb) {
      var i :| 0 <= i < |a + b| && cb((a + b)[i].tagName, (a + b)[i].position).Throw?;
      if i >= |a| { assert (a + b)[i] == b[i - |a|]; }
    }
    if SomeThrows(b, cb) {
      var i :| 0 <= i < |b| && cb(b[i].tagName, b[i].position).Throw?;
      assert (a + b)[|a| + i] == b[i];
    }
    if SomeThrows(a, cb) {
      var i :| 0 <= i < |a| && cb(a[i].tagName, a[i].position).Throw?;
      assert (a + b)[i] == a[i];
    }
  }

  /**
   * A visit that completes keeps the tree's shape, tags, positions and
   * texts, and gives the k-th element reached exactly the properties its
   * callback asked for.
   */
  lemma {:induction false} VisitEffect(n: HNode, cb: Callback)
    ensures Visit(n, cb).Some? ==>
      Erase(Visit(n, cb).value) == Erase(n) &&
      Heads(Visit(n, cb).value) == UpdateHeads(Heads(n), cb)
    decreases n, 1
  {
    match n
    case Root(ks) =>
      VisitAllEffect(ks, cb);
    case Element(t, p, ks, pos) =>
      VisitAllEffect(ks, cb);
      UpdateHeadsConcat([Head(t, p, pos)], HeadsAll(ks), cb);
    case _ =>
  }

  lemma {:induction false} VisitAllEffect(ns: seq<HNode>, cb: Callback)
    ensures VisitAll(ns, cb).Some? ==>
      EraseAll(VisitAll(ns, cb).value) == EraseAll(ns) &&
      HeadsAll(VisitAll(ns, cb).value) == UpdateHeads(HeadsAll(ns), cb)
    decreases ns, 0
  {
    if ns != [] && VisitAll(ns, cb).Some? {
      VisitEffect(ns[0], cb);
      VisitAllEffect(ns[1..], cb);
      var r := VisitAll(ns, cb).value;
      assert r[0] == Visit(ns[0], cb).value && r[1..] == VisitAll(ns[1..], cb).value;
      UpdateHeadsConcat(Heads(ns[0]), HeadsAll(ns[1..]), cb);
    }
  }

  /** The visit fails exactly when the callback throws on some element. */
  lemma {:induction false} VisitFails(n: HNode, cb: Callback)
    ensures Visit(n, cb).None? <==> SomeThrows(Heads(n), cb)
    decreases n, 1
  {
    match n
    case Root(ks) =>
      VisitAllFails(ks, cb);
    case Element(t, p, ks, pos) =>
      VisitAllFails(ks, cb);
      SomeThrowsConcat([Head(t, p, pos)], HeadsAll(ks), cb);
      assert SomeThrows([Head(t, p, pos)], cb) <==> cb(t, pos).Throw? by {
        assert [Head(t, p, pos)][0] == Head(t, p, pos);
      }
    case _ =>
  }

  lemma {:induction false} VisitAllFails(ns: seq<HNode>, cb: Callback)
    ensures VisitAll(ns, cb).None? <==> SomeThrows(HeadsAll(ns), cb)
    decreases ns, 0
  {
    if ns != [] {
      VisitFails(ns[0], cb);
      VisitAllFails(ns[1..], cb);
      SomeThrowsConcat(Heads(ns[0]), HeadsAll(ns[1..]), cb);
    }
  }

  /**
   * Running a visit a second time over its own result changes nothing:
   * the callbacks see the same tags and positions and set the same keys
   * to the same values.
   */
  lemma {:induction false} VisitIdempotent(n: HNode, cb: Callback)
    ensures Visit(n, cb).Some? ==> Visit(Visit(n, cb).value, cb) == Visit(n, cb)
    decreases n, 1
  {
    match n
    case Root(ks) =>
      VisitAllIdempotent(ks, cb);
    case Element(t, p, ks, pos) =>
      VisitAllIdempotent(ks, cb);
      var u := cb(t, pos);
      if u.SetProp? {
        var m := p.GetOr(map[])[u.key := u.value];
        assert m[u.key := u.value] == m;
      }
    case _ =>
  }

  lemma {:induction false} VisitAllIdempotent(ns: seq<HNode>, cb: Callback)
    ensures VisitAll(ns, cb).Some? ==> VisitAll(VisitAll(ns, cb).value, cb) == VisitAll(ns, cb)
    decreases ns, 0
  {
    if ns != [] && VisitAll(ns, cb).Some? {
      VisitIdempotent(ns[0], cb);
      VisitAllIdempotent(ns[1..], cb);
      var r := VisitAll(ns, cb).value;
      assert r[0] == Visit(ns[0], cb).value && r[1..] == VisitAll(ns[1..], cb).value;
    }
  }
}
