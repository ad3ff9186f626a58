/**
 * `rehypePassGeneratedProp`: marks every `think` and `pre` element with
 * `properties.generated`, `true` while the block is still streaming and
 * `false` once its closing delimiter appears in the element's source slice.
 */
module PassGenerated {
  import opened Wrappers
  import opened Js
  import opened JsString
  import opened Hast

  const ThinkClose := "</think>"
  const Fence := "```"

  /** The raw source text an element was parsed from. */
  function SourceSlice(src: string, span: Span): string {
    Slice(src, span.start, span.end)
  }

  /** A think block is still streaming until its slice contains `</think>`. */
  function ThinkGenerated(slice: string): (generated: bool)
    ensures !generated <==> Occurs(slice, ThinkClose)
  {
    if Includes(slice, ThinkClose) then false else true
  }

  /** The slice holds two occurrences of a code fence, one starting after the other (they may overlap). */
  ghost predicate OpenedAndClosed(slice: string) {
    exists i, j :: 0 <= i < j && OccursAt(slice, Fence, i) && OccursAt(slice, Fence, j)
  }

  /**
   * A code block is still streaming unless its slice contains a fence and the
   * last fence starts after the first one.
   */
  function PreGenerated(slice: string): (generated: bool)
    ensures !generated <==> OpenedAndClosed(slice)
  {
    var first := IndexOf(slice, Fence);
    var last := LastIndexOf(slice, Fence);
    assert OpenedAndClosed(slice) ==> Includes(slice, Fence) && last > first by {
      if OpenedAndClosed(slice) {
        var i, j :| 0 <= i < j && OccursAt(slice, Fence, i) && OccursAt(slice, Fence, j);
      }
    }
    if Includes(slice, Fence) && last > first then false else true
  }

  /** The `visit` callback of the plugin, for a source text `src`. */
  function GeneratedUpdate(src: string, tagName: string, position: Option<Span>): (u: Update)
    ensures tagName != "think" && tagName != "pre" ==> u == Keep
    ensures (tagName == "think" || tagName == "pre") && position.None? ==> u == Throw
    ensures tagName == "think" && position.Some? ==>
      u == SetProp("generated", Bool(!Occurs(SourceSlice(src, position.value), ThinkClose)))
    ensures tagName == "pre" && position.Some? ==>
      u == SetProp("generated", Bool(!OpenedAndClosed(SourceSlice(src, position.value))))
  {
    if tagName == "think" then
      if position.None? then Throw
      else SetProp("generated", Bool(ThinkGenerated(SourceSlice(src, position.value))))
    else if tagName == "pre" then
      if position.None? then Throw
      else SetProp("generated", Bool(PreGenerated(SourceSlice(src, position.value))))
    else Keep
  }

  function GeneratedCallback(src: string): Callback {
    (t, pos) => GeneratedUpdate(src, t, pos)
  }

  /** The transformer: `None` when it throws. */
  function RehypePassGeneratedProp(src: string, tree: HNode): Option<HNode> {
    Visit(tree, GeneratedCallback(src))
  }

  /** A `think` or `pre` element without a source position, on which the destructuring throws. */
  ghost predicate Unpositioned(hs: seq<Head>) {
    exists i :: 0 <= i < |hs| && (hs[i].tagName == "think" || hs[i].tagName == "pre") && hs[i].position.None?
  }

  /** The transformer throws exactly when some `think` or `pre` element has no position. */
  lemma PassFails(src: string, tree: HNode)
    ensures RehypePassGeneratedProp(src, tree).None? <==> Unpositioned(Heads(tree))
  {
    VisitFails(tree, GeneratedCallback(src));
    var hs := Heads(tree);
    if Unpositioned(hs) {
      var i :| 0 <= i < |hs| && (hs[i].tagName == "think" || hs[i].tagName == "pre") && hs[i].position.None?;
      assert GeneratedCallback(src)(hs[i].tagName, hs[i].position).Throw?;
    }
  }

  /**
   * What the pass does to the k-th element it reaches: a `think` element gets
   * `generated == false` exactly when its slice contains `</think>`; a `pre`
   * element exactly when its slice holds an opening and a later closing
   * fence; the other keys of either are kept and `properties` is created
   * when absent; every other element is left as it was. The tree's shape,
   * tags, positions and texts are unchanged.
   */
  lemma PassEffect(src: string, tree: HNode, k: nat)
    requires RehypePassGeneratedProp(src, tree).Some?
    requires k < |Heads(tree)|
    ensures Erase(RehypePassGeneratedProp(src, tree).value) == Erase(tree)
    ensures |Heads(RehypePassGeneratedProp(src, tree).value)| == |Heads(tree)|
    ensures
      var before := Heads(tree)[k];
      var after := Heads(RehypePassGeneratedProp(src, tree).value)[k];
      after.tagName == before.tagName && after.position == before.position &&
      (before.tagName != "think" && before.tagName != "pre" ==> after.properties == before.properties) &&
      (before.tagName == "think" || before.tagName == "pre" ==> before.position.Some?) &&
      (before.tagName == "think" ==>
        after.properties == Some(before.properties.GetOr(map[])["generated" :=
          Bool(!Occurs(SourceSlice(src, before.position.value), ThinkClose))])) &&
      (before.tagName == "pre" ==>
        after.properties == Some(before.properties.GetOr(map[])["generated" :=
          Bool(!OpenedAndClosed(SourceSlice(src, before.position.value)))]))
  {
    var cb := GeneratedCallback(src);
    VisitEffect(tree, cb);
    VisitFails(tree, cb);
    var before := Heads(tree)[k];
    assert !cb(before.tagName, before.position).Throw?;
  }

  /** Running the pass again on its own output changes nothing. */
  lemma PassIdempotent(src: string, tree: HNode)
    requires RehypePassGeneratedProp(src, tree).Some?
    ensures RehypePassGeneratedProp(src, RehypePassGeneratedProp(src, tree).value) == RehypePassGeneratedProp(src, tree)
  {
    VisitIdempotent(tree, GeneratedCallback(src));
  }

  /** Four backticks hold two overlapping fences, so such a block counts as complete. */
  lemma OverlappingFencesComplete()
    ensures PreGenerated("````") == false
  {
  }

  /** A lone opening fence is still streaming. */
  lemma OneFenceStreaming()
    ensures PreGenerated("```ts") == true
  {
    var s := "```ts";
    forall j | 1 <= j && j + |Fence| <= |s| ensures !OccursAt(s, Fence, j) {
      assert s[j..j + |Fence|][2] == s[j + 2] != '`';
    }
  }

  /** An empty slice is still streaming, whatever the element. */
  lemma EmptySliceStreaming()
    ensures ThinkGenerated("") == true && PreGenerated("") == true
  {
  }

  /** An open reasoning block is streaming; once `</think>` has arrived it is complete. */
  lemma ThinkScenarios()
    ensures ThinkGenerated("<think>partial reasoning") == true
    ensures ThinkGenerated("<think>done</think>") == false
  {
    var open := "<think>partial reasoning";
    assert forall m :: 0 <= m < |open| ==> open[m] != '/';
    forall i | 0 <= i && i + |ThinkClose| <= |open| ensures !OccursAt(open, ThinkClose, i) {
      assert open[i..i + |ThinkClose|][1] == open[i + 1] != '/';
    }
    assert OccursAt("<think>done</think>", ThinkClose, 11);
  }
}
