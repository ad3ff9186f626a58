/** `rehypePreviewImg`: marks every `img` element with `properties.preview = true`. */
module PreviewImg {
  import opened Wrappers
  import opened Js
  import opened Hast

  /** The `visit` callback: only `img` elements are touched. */
  function PreviewUpdate(tagName: string, position: Option<Span>): (u: Update)
    ensures u != Throw
    ensures u == (if tagName == "img" then SetProp("preview", Bool(true)) else Keep)
  {
    if tagName != "img" then Keep else SetProp("preview", Bool(true))
  }

  function PreviewCallback(): Callback {
    (t, pos) => PreviewUpdate(t, pos)
  }

  function RehypePreviewImg(tree: HNode): Option<HNode> {
    Visit(tree, PreviewCallback())
  }

  /** The pass never throws. */
  lemma PreviewNeverFails(tree: HNode)
    ensures RehypePreviewImg(tree).Some?
  {
    VisitFails(tree, PreviewCallback());
  }

  /**
   * After the pass every `img` element has `preview == true` and keeps its
   * other properties; every other element, and the tree's shape, tags,
   * positions and texts are unchanged.
   */
  lemma PreviewEffect(tree: HNode, k: nat)
    requires k < |Heads(tree)|
    ensures RehypePreviewImg(tree).Some?
    ensures Erase(RehypePreviewImg(tree).value) == Erase(tree)
    ensures |Heads(RehypePreviewImg(tree).value)| == |Heads(tree)|
    ensures
      var before := Heads(tree)[k];
      var after := Heads(RehypePreviewImg(tree).value)[k];
      after.tagName == before.tagName && after.position == before.position &&
      (before.tagName != "img" ==> after.properties == before.properties) &&
      (before.tagName == "img" ==>
        after.properties == Some(before.properties.GetOr(map[])["preview" := Bool(true)]))
  {
    PreviewNeverFails(tree);
    VisitEffect(tree, PreviewCallback());
  }

  /** Every `img` in the result is marked. */
  lemma AllImagesMarked(tree: HNode)
    ensures RehypePreviewImg(tree).Some?
    ensures forall h :: h in Heads(RehypePreviewImg(tree).value) && h.tagName == "img" ==>
      h.properties.Some? && "preview" in h.properties.value && h.properties.value["preview"] == Bool(true)
  {
    PreviewNeverFails(tree);
    VisitEffect(tree, PreviewCallback());
  }

  /** Marking twice is the same as marking once. */
  lemma PreviewIdempotent(tree: HNode)
    ensures RehypePreviewImg(tree).Some?
    ensures RehypePreviewImg(RehypePreviewImg(tree).value) == RehypePreviewImg(tree)
  {
    PreviewNeverFails(tree);
    VisitIdempotent(tree, PreviewCallback());
  }
}
