# Streaming markdown annotation passes, in Dafny

This project models the streaming-tolerant core of vue-markdown-card, a Vue
component that renders markdown arriving token by token. The core sits between
the markdown parser (remark/rehype) and Vue. It has five pieces:

- **Completion detection** (`rehypePassGeneratedProp`). Every `think` and `pre`
  element gets `properties.generated`. It is `true` while the block is still
  streaming and `false` once the element's raw source slice holds its closing
  delimiter. For `think` that is `</think>`. For `pre` it is a second code fence
  that starts after the first one.
- **Directive resolution** (`remarkComponentCodeBlock`). A code block tagged
  `component-json` is replaced, in the same slot of its parent, by a
  `ComponentCodeBlock` node, unless its meta is truthy and either does not parse, or
  parses to `null` while the body does not parse; then it stays as it is. The
  new node carries either the parsed body or a placeholder key. `ComponentCodeBlock` then picks what to render from the
  component registry.
- **Fallback diagram renderer** (`MermaidService`). The mermaid library is
  loaded lazily, with at most one load of a service in flight and none after
  a success. A theme change reconfigures it in place. Every
  successful render caches its SVG, and every failure answers with the cached
  SVG.
- **Image preview marking** (`rehypePreviewImg`). Every `img` element gets
  `preview = true`.
- **Think-block rendering** (`ThinkBlock`). The reasoning block's HTML tree is
  mapped to render output and handed to the configured renderer, with
  `isThinking` taken from the `generated` flag.

Modules:
- `Wrappers` holds `Option`.
- `Js` models JavaScript values, truthiness, `ToString` and property reads.
- `JsString` models `slice`, `includes`, `indexOf` and `lastIndexOf`.
- `Hast` holds the HTML tree and the shared pre-order `visit` walk, with its
  lemmas: the tree's shape is kept, each element gets exactly what its callback
  asks for, the walk fails exactly when a callback throws, and a second run
  changes nothing.
- `PassGenerated`, `PreviewImg`, `ComponentCodeBlock`, `Mermaid` and
  `ThinkBlock` model one source file each.

`JSON.parse` is a parameter `parse: string -> Option<Value>`, where `None` means
it threw. The mermaid engine's outcomes are also parameters: whether the import
succeeds, and the SVG that `render` yields or `None` when it throws.

Behaviour of the code worth knowing:
- **Absent meta.** In a parsed tree an absent meta is `null`, and
  `JSON.parse(null)` yields `null`. So a `component-json` block without meta
  first gets the default placeholder, and then it is *resolved* once its body
  parses. The placeholder stays only while the body does not parse, because
  reading `placeholder` of `null` throws and the error is swallowed. It also
  stays for an `undefined` or empty meta (`MissingMeta`).
- **Unparsable meta.** A present but unparsable meta leaves the code node
  untouched. It does not become a placeholder (`UnparsableMeta`).
- **Missing placeholder key.** When the meta parses and the body does not, the
  placeholder key is `meta.placeholder` with no fallback to the default key. A
  meta without that key therefore yields `placeholder: undefined`, and the
  component renders the wrapper instead of a placeholder
  (`UndefinedKeyReachesWrapper`).
- **Failed load.** There is no "failed" load state. After a failed load,
  callers that were waiting keep polling (`CheckInstance` keeps answering
  `None`), and the next call starts a new load.
- **Theme reconfiguration.** Both `initialize` calls spread the service's
  config after their literal keys, so the config's own keys win. On loading,
  a config `theme` key decides the theme even when it holds `undefined`, and
  only an absent key gives "default" (`LoadOptions`). On a theme change the
  requested theme has just been written into the config, so the library is
  configured with that theme itself, "light" and not "default"
  (`ThemeOptions`).
- **Shared library.** `import('mermaid')` yields one module object for the
  whole program, so every service configures the same library, while each
  service compares the requested theme only with its own config. After one
  service switches the library to light, another whose config already says
  dark renders without reconfiguring it (`SharedLibraryScenario`). A service
  also keeps the caller's config object itself and writes `theme` into it.
- **SVG cache.** The cached SVG belongs to the service object. One service
  renders one diagram.

## Model

| member | source | states |
|---|---|---|
| `JsString.IndexOf` | src/core/plugin/rehypePassGeneratedProp.ts:26 | -1 exactly when the pattern does not occur; otherwise an occurrence with none before it |
| `JsString.LastIndexOf` | src/core/plugin/rehypePassGeneratedProp.ts:26 | -1 exactly when the pattern does not occur; otherwise an occurrence with none after it |
| `JsString.Includes` | src/core/plugin/rehypePassGeneratedProp.ts:15 | true exactly when the pattern occurs somewhere in the string |
| `JsString.Slice` | src/core/plugin/rehypePassGeneratedProp.ts:13 | `slice(start, end)` is the in-range piece, clamped at the length, and empty when end is not after start |
| `PassGenerated.ThinkGenerated` | src/core/plugin/rehypePassGeneratedProp.ts:15 | a think block is complete (`false`) exactly when its slice contains `</think>` |
| `PassGenerated.PreGenerated` | src/core/plugin/rehypePassGeneratedProp.ts:25-26 | a code block is complete exactly when its slice holds two fence occurrences, the second starting after the first (overlap allowed) |
| `PassGenerated.GeneratedUpdate` | src/core/plugin/rehypePassGeneratedProp.ts:11-27 | the per-element decision: think and pre set `generated` from their slice, a missing position throws, other elements are kept |
| `PassGenerated.PassFails` | src/core/plugin/rehypePassGeneratedProp.ts:12-21 | the transformer throws exactly when some think or pre element has no position |
| `PassGenerated.PassEffect` | src/core/plugin/rehypePassGeneratedProp.ts:9-28 | shape kept; think/pre get `generated` (other keys kept, properties created); all other elements unchanged |
| `PassGenerated.PassIdempotent` | src/core/plugin/rehypePassGeneratedProp.ts:8-28 | running the pass on its own output changes nothing |
| `PassGenerated.OverlappingFencesComplete` | src/core/plugin/rehypePassGeneratedProp.ts:26 | four backticks count as an opened and closed code block |
| `PassGenerated.OneFenceStreaming` | src/core/plugin/rehypePassGeneratedProp.ts:26 | a lone opening fence is still streaming |
| `PassGenerated.EmptySliceStreaming` | src/core/plugin/rehypePassGeneratedProp.ts:13-26 | an empty slice is streaming for both kinds |
| `PassGenerated.ThinkScenarios` | src/core/plugin/rehypePassGeneratedProp.ts:11-15 | `<think>partial reasoning` is streaming, `<think>done</think>` is complete |
| `Hast.Applied` | src/core/plugin/rehypePreviewImg.ts:7-8 | setting a key creates the properties when absent, sets that key and keeps every other key |
| `Hast.VisitEffect` | src/core/plugin/rehypePassGeneratedProp.ts:9 | a completed visit keeps shape, tags, positions and texts, and gives the k-th element in pre-order exactly its callback's update |
| `Hast.VisitFails` | src/core/plugin/rehypePassGeneratedProp.ts:9 | a visit fails exactly when the callback throws on some element |
| `Hast.VisitIdempotent` | src/core/plugin/rehypePreviewImg.ts:5-9 | visiting the result of a visit again changes nothing |
| `PreviewImg.PreviewNeverFails` | src/core/plugin/rehypePreviewImg.ts:5-9 | the pass always completes |
| `PreviewImg.PreviewEffect` | src/core/plugin/rehypePreviewImg.ts:5-9 | img elements get `preview = true` with other properties kept; other elements and the tree's shape are unchanged |
| `PreviewImg.AllImagesMarked` | src/core/plugin/rehypePreviewImg.ts:6-8 | every img element of the result has `preview == true` |
| `PreviewImg.PreviewIdempotent` | src/core/plugin/rehypePreviewImg.ts:5-9 | marking twice equals marking once |
| `ComponentCodeBlock.Splice` | src/core/plugin/remarkComponentCodeBlock.ts:20 | `splice(index, 1, x)` keeps the length and every sibling; only the slot changes |
| `ComponentCodeBlock.CodeVisitor` | src/core/plugin/remarkComponentCodeBlock.ts:8-46 | the callback's sequence of splices and swallowed exceptions equals replacing one slot by the decision table's result |
| `ComponentCodeBlock.Transform` | src/core/plugin/remarkComponentCodeBlock.ts:7-48 | code nodes follow the decision table; leaves and component blocks are kept; parents keep kind and child count |
| `ComponentCodeBlock.VisitChildren` | src/core/plugin/remarkComponentCodeBlock.ts:7 | walking a parent's live children replaces each child by its own transform, in place |
| `ComponentCodeBlock.TransformInPlace` | src/core/plugin/remarkComponentCodeBlock.ts:20-44 | the root keeps its kind and child count, and child j becomes the transform of child j |
| `ComponentCodeBlock.OnlyDirectivesReplaced` | src/core/plugin/remarkComponentCodeBlock.ts:7-8 | a non-parent node that changes is a `component-json` code node, and it becomes a component block |
| `ComponentCodeBlock.TransformIdempotent` | src/core/plugin/remarkComponentCodeBlock.ts:6-49 | transforming the result again changes nothing |
| `ComponentCodeBlock.MissingMeta` | src/core/plugin/remarkComponentCodeBlock.ts:9-25 | absent or empty meta: the default placeholder, except that a `null` meta with a parsable body is resolved |
| `ComponentCodeBlock.ParsedDirective` | src/core/plugin/remarkComponentCodeBlock.ts:23-33 | meta and body parse: the node carries exactly the parsed body |
| `ComponentCodeBlock.UnparsedBody` | src/core/plugin/remarkComponentCodeBlock.ts:34-46 | meta parses, body does not: placeholder keyed by `meta.placeholder`, no default fallback; a `null` meta keeps what the meta check left |
| `ComponentCodeBlock.UnparsableMeta` | src/core/plugin/remarkComponentCodeBlock.ts:22-46 | a present, unparsable meta leaves the code node as it is, with nothing thrown |
| `ComponentCodeBlock.CustomPlaceholderScenario` | src/core/plugin/remarkComponentCodeBlock.ts:34-44 | meta `{"placeholder":"custom"}` with a truncated body gives the placeholder keyed "custom" |
| `Js.Member` | src/core/plugin/remarkComponentCodeBlock.ts:40 | reading a key throws on null and undefined, and reads undefined for a missing key |
| `ComponentCodeBlock.SelectComponent` | src/core/plugin/remarkComponentCodeBlock.ts:84-92 | a truthy placeholder selects its registry entry or the built-in Placeholder; otherwise the wrapper with the `type` entry and `props` |
| `ComponentCodeBlock.DefaultPlaceholderSelected` | src/core/plugin/remarkComponentCodeBlock.ts:84-87 | the default placeholder renders the registry's default entry or the built-in Placeholder, never the wrapper |
| `ComponentCodeBlock.ResolvedSelected` | src/core/plugin/remarkComponentCodeBlock.ts:88-93 | a resolved body with `type` and `props` renders that registry entry with those props |
| `ComponentCodeBlock.UndefinedKeyReachesWrapper` | src/core/plugin/remarkComponentCodeBlock.ts:34-92 | a meta without `placeholder` and a bad body yield `placeholder: undefined`, which renders the wrapper and not a placeholder |
| `Mermaid.LoadOptions` | src/core/MermaidService.ts:34-39 | the load-time options hold every config key with the config's value; the theme is the config's `theme` entry when the key exists, else "default" |
| `Mermaid.ThemeOptions` | src/core/MermaidService.ts:63-70 | the options on a theme change hold every config key with the config's value, so a theme written into the config is the theme the library gets |
| `Mermaid.MermaidService.constructor` | src/core/MermaidService.ts:7-11 | a new service has no instance, is not loading, caches "" and keeps the given library and config objects |
| `Mermaid.MermaidService.StartLoad` | src/core/MermaidService.ts:14-31 | a cached instance is returned as is; while a load is in flight the caller waits; otherwise this call starts the only load |
| `Mermaid.MermaidService.CompleteLoad` | src/core/MermaidService.ts:32-47 | success initialises the shared library once more with the load-time options of this service's config and caches it; failure leaves no instance and the library as it was; `isLoading` ends false either way |
| `Mermaid.MermaidService.CheckInstance` | src/core/MermaidService.ts:20-26 | a waiting caller resolves exactly when an instance exists, and then with that instance |
| `Mermaid.MermaidService.RenderMermaid` | src/core/MermaidService.ts:60-79 | an omitted theme means light; reuses the instance; only when the service's `config.theme` differs is the theme written into the config and the library reinitialised with the theme options; caches and returns a successful SVG; any failure returns the cache; never throws |
| `Mermaid.Settle` | src/core/MermaidService.ts:73-78 | a success replaces the cached SVG and a failure keeps it |
| `Mermaid.OutputsAreLatestSuccess` | src/core/MermaidService.ts:73-78 | over any series of calls, each answer is the SVG of the latest success so far, or the initial cache |
| `Mermaid.NeverRegressesToEmpty` | src/core/MermaidService.ts:74-77 | after a non-empty success, no later call answers with "" as long as the successes in between are non-empty |
| `Mermaid.EmptyBeforeFirstSuccess` | src/core/MermaidService.ts:76-78 | before any success, every call of a new service answers "" |
| `ThinkBlock.RenderHtmlAstNode` | src/core/ThinkBlock.ts:23-33 | text gives its value; an element keeps tag and properties (`{}` when absent) with children mapped one-to-one in order; anything else gives null |
| `ThinkBlock.RenderAll` | src/core/ThinkBlock.ts:28 | the children's renderings, same count and order |
| `ThinkBlock.RenderRoundTrip` | src/core/ThinkBlock.ts:23-33 | rendering any text-and-element tree leaves no `null` hole and loses only positions and the absent-or-empty distinction of properties: it reads back to the stripped tree |
| `ThinkBlock.StripKeepsPlain` | src/core/ThinkBlock.ts:26-29 | stripping leaves a text-and-element tree as it is exactly when no element has a position or lacks properties, so exactly those trees read back unchanged |
| `ThinkBlock.RenderOnto` | src/core/ThinkBlock.ts:23-33 | every null-free output is the rendering of some HTML tree |
| `ThinkBlock.ThinkBlockRenderer` | src/core/ThinkBlock.ts:19-21 | the configured renderer when set, else ThinkBlock itself, so never empty |
| `ThinkBlock.RenderThinkBlock` | src/core/ThinkBlock.ts:35-45 | always calls the renderer, with `isThinking` equal to `generated` (default false) and the rendered content |
| `ThinkBlock.ThinkingWhileOpen` | src/core/ThinkBlock.ts:39-41 | a think block is shown as thinking exactly while its source slice lacks `</think>` |

## Left out

- In-place mutation: the three tree passes mutate node objects during `visit`. Here they are functions that return the updated tree. Parser output shares no node objects, so the result is the same, but aliasing between nodes is not captured.
- `unist-util-visit` is modelled as a plain pre-order walk. Its skip and exit return values are not modelled, because the callbacks never use them.
- An element whose `children` is absent is represented with an empty list. Both `visit` and `renderHtmlAstNode` treat the two alike.
- A node position whose offsets are missing (`start.offset` undefined) is not modelled. A missing `position` is modelled: the transformer throws.
- Property keys that JavaScript's built-in prototypes define (such as `constructor`) are not modelled in `Js.Member` or `ComponentCodeBlock.Lookup`.
- `JSON.parse` and `JSON.stringify` internals are not modelled: parsing is a parameter. Numbers are integers only; floating point is not modelled.
- How mdast-util-to-hast copies `hProperties` onto the element is not part of this model. `PropertiesOf` uses the object's fields, and a non-object body gives no properties.
- `ComponentWrapper` (the `JSON.stringify`/`JSON.parse` round trip of props), Vue's `h` and `inject` are not modelled. The selection returns which component would be rendered, with which props.
- `ComponentCodeBlock.RemarkComponentCodeBlock` requires a parent node at the root. A bare code node as the whole tree would make `parent.children` throw; unified always passes a root.
- The `setTimeout` polling loop (src/core/MermaidService.ts:18-28) is modelled as one poll, `CheckInstance`. Timing and interleaving are left out. `RenderMermaid` is one call running without interleaving; interleavings are sequences of `StartLoad`, `CompleteLoad` and `CheckInstance` calls.
- `mermaid.initialize` is taken never to throw. The library records the options it was last given; what they do to rendering is not modelled.
- The `code` argument of `renderMermaid` and the random render id (`Date.now`, `Math.random`) are not modelled. The render's outcome is a parameter.
- `renderToContainer` (DOM, `btoa`) and `console.error` are not modelled.
- `Mermaid.Engine` stands for the mermaid module object; a service is given it at construction instead of importing it. Its ghost `initializations` counter records the `initialize` calls. Other code that configures the library directly is not modelled.
- Strings are sequences of Unicode scalar values. JavaScript strings, node offsets and `slice` count UTF-16 code units, so the two differ for text outside the Basic Multilingual Plane; that difference is not modelled.
- src/core/VueMarkdownRenderer.ts, src/core/ShikiProvider.ts, src/core/highlight/shiki.ts, vite.config.ts and src/index.ts are not part of this model. They are framework glue, UI lifecycle and build configuration.
