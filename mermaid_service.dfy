/**
 * `MermaidService`: renders diagram source to SVG with the lazily loaded
 * mermaid library, and answers with the last SVG that rendered whenever
 * loading or rendering fails.
 *
 * The library's outcomes are parameters: whether importing and initialising
 * it succeeds, and what `mermaid.render` yields for the diagram (an SVG, or
 * `None` when it throws). The asynchronous `loadMermaid` is split at its
 * `await`: `StartLoad` is the part before it, `CompleteLoad` the
 * continuation, `CheckInstance` one poll of a caller that found a load
 * already in flight.
 *
 * `import('mermaid')` resolves to one module object for the whole program,
 * so every service is given the same `Engine`; and a service keeps the
 * caller's config object itself, which `renderMermaid` writes into.
 */
module Mermaid {
  import opened Wrappers
  import opened Js

  datatype Theme = Light | Dark

  /** The string a theme is written as in a config. */
  function ThemeName(t: Theme): string {
    match t
    case Light => "light"
    case Dark => "dark"
  }

  /** `config.theme`: the entry's value, `undefined` when the key is absent. */
  function ConfigTheme(entries: map<string, Value>): Value {
    Member(Obj(entries), "theme").value
  }

  /**
   * The argument of the first `mermaid.initialize`: the literal keys, then
   * `...this.config`. The spread wins, so the config's own `theme` key, even
   * an explicit `undefined`, decides the theme; only an absent key leaves
   * "default".
   */
  function LoadOptions(entries: map<string, Value>): (o: map<string, Value>)
    ensures o.Keys == entries.Keys + {"theme", "startOnLoad", "suppressErrorRendering"}
    ensures forall k :: k in entries ==> o[k] == entries[k]
    ensures o["theme"] == (if "theme" in entries then entries["theme"] else Str("default"))
    ensures "startOnLoad" !in entries ==> o["startOnLoad"] == Bool(false)
    ensures "suppressErrorRendering" !in entries ==> o["suppressErrorRendering"] == Bool(true)
  {
    var theme := ConfigTheme(entries);
    map["theme" := if Truthy(theme) then theme else Str("default"),
        "startOnLoad" := Bool(false),
        "suppressErrorRendering" := Bool(true)] + entries
  }

  /**
   * The argument of `mermaid.initialize` on a theme change: the literal
   * keys with `'dark'` or `'default'`, then `...this.config`, into which the
   * requested theme was just written. So the requested theme itself wins:
   * a change to light configures "light", not "default".
   */
  function ThemeOptions(entries: map<string, Value>, theme: Theme): (o: map<string, Value>)
    ensures o.Keys == entries.Keys + {"theme", "startOnLoad", "suppressErrorRendering"}
    ensures forall k :: k in entries ==> o[k] == entries[k]
    ensures ConfigTheme(entries) == Str(ThemeName(theme)) ==> o["theme"] == Str(ThemeName(theme))
    ensures "theme" !in entries ==> o["theme"] == Str(if theme == Dark then "dark" else "default")
  {
    map["startOnLoad" := Bool(false),
        "suppressErrorRendering" := Bool(true),
        "theme" := Str(if theme == Dark then "dark" else "default")] + entries
  }

  /**
   * The mermaid library: the one module object `import('mermaid')` yields,
   * configured in place by `initialize`, which replaces its options.
   */
  class Engine {
    var options: map<string, Value>
    ghost var initializations: nat

    constructor ()
      ensures options == map[] && initializations == 0
    {
      options := map[];
      initializations := 0;
    }

    method Initialize(options: map<string, Value>)
      modifies this
      ensures this.options == options && initializations == old(initializations) + 1
    {
      this.options := options;
      initializations := initializations + 1;
    }
  }

  /** A `MermaidConfig` object, shared with whoever created it. */
  class Config {
    var entries: map<string, Value>

    constructor (entries: map<string, Value>)
      ensures this.entries == entries
    {
      this.entries := entries;
    }
  }

  /** How the synchronous part of `loadMermaid` ends. */
  datatype LoadStep =
    | Cached(engine: Engine)   // the instance is returned without re-initialising
    | MustWait                 // another load is in flight: poll until an instance appears
    | Started                  // this call is now the one load in flight

  /** How a `renderMermaid` call ends. */
  datatype Settlement =
    | Settled(svg: string)
    | Pending                  // waiting on another caller's load, which has not finished

  /** The cache after one settled call: a success replaces it, a failure keeps it. */
  function Settle(cache: string, success: Option<string>): (c: string)
    ensures success.Some? ==> c == success.value
    ensures success.None? ==> c == cache
  {
    if success.Some? then success.value else cache
  }

  class MermaidService {
    /** What `import('mermaid')` resolves to: the same object for every service. */
    const library: Engine
    /** The caller's config object, kept by reference. */
    const config: Config
    var mermaidInstance: Engine?
    var isLoading: bool
    var lastValidResult: string

    /** Once loaded, no load is in flight and the instance is the library. */
    ghost predicate Valid()
      reads this
    {
      mermaidInstance != null ==> !isLoading && mermaidInstance == library
    }

    constructor (library: Engine, config: Config)
      ensures Valid()
      ensures this.library == library && this.config == config
      ensures mermaidInstance == null && !isLoading && lastValidResult == ""
    {
      this.library := library;
      this.config := config;
      mermaidInstance := null;
      isLoading := false;
      lastValidResult := "";
    }

    /** `loadMermaid` up to `await import('mermaid')`. */
    method StartLoad() returns (step: LoadStep)
      requires Valid()
      modifies this`isLoading
      ensures Valid()
      ensures old(mermaidInstance) != null ==> step == Cached(mermaidInstance) && isLoading == old(isLoading)
      ensures old(mermaidInstance) == null && old(isLoading) ==> step == MustWait && isLoading
      ensures old(mermaidInstance) == null && !old(isLoading) ==> step == Started && isLoading
    {
      if mermaidInstance != null {
        return Cached(mermaidInstance);
      }
      if isLoading {
        return MustWait;
      }
      isLoading := true;
      return Started;
    }

    /**
     * The rest of `loadMermaid`, for the one load in flight: on success the
     * library is initialised from this service's config and cached; either
     * way `isLoading` ends false. `None` is the thrown "Failed to load
     * mermaid library", and then the library is as it was.
     */
    method CompleteLoad(importOk: bool) returns (loaded: Option<Engine>)
      requires Valid() && isLoading && mermaidInstance == null
      modifies this`mermaidInstance, this`isLoading, library
      ensures Valid() && !isLoading
      ensures importOk ==> loaded == Some(library) && mermaidInstance == library
      ensures importOk ==>
        library.options == LoadOptions(config.entries) &&
        library.initializations == old(library.initializations) + 1
      ensures !importOk ==> loaded.None? && mermaidInstance == null && unchanged(library)
    {
      if importOk {
        library.Initialize(LoadOptions(config.entries));
        mermaidInstance := library;
        loaded := Some(library);
      } else {
        loaded := None;
      }
      isLoading := false;
    }

    /** One poll of a caller waiting on another load: it resolves once an instance exists. */
    method CheckInstance() returns (r: Option<Engine>)
      ensures r.Some? <==> mermaidInstance != null
      ensures r.Some? ==> r.value == mermaidInstance
    {
      if mermaidInstance != null {
        r := Some(mermaidInstance);
      } else {
        r := None;
      }
    }

    /**
     * `renderMermaid(code, theme)` run to the end without interleaving;
     * `theme` is `None` when the argument is omitted, which means light.
     * A loaded library is reused; it is reconfigured only when this
     * service's `config.theme` differs from the requested theme, which is
     * then written into the config. A successful render caches and returns
     * its SVG; any failure returns the cached SVG ("" before any success).
     * It never throws.
     */
    method RenderMermaid(theme: Option<Theme>, importOk: bool, rendered: Option<string>) returns (r: Settlement)
      requires Valid()
      modifies this, library, config
      ensures Valid()
      ensures r.Pending? <==> old(mermaidInstance) == null && old(isLoading)
      ensures r.Pending? ==>
        mermaidInstance == null && isLoading && lastValidResult == old(lastValidResult) &&
        unchanged(library, config)
      ensures r.Settled? ==> !isLoading && r.svg == lastValidResult
      ensures old(mermaidInstance) != null ==> mermaidInstance == library
      ensures old(mermaidInstance) == null && !old(isLoading) ==>
        mermaidInstance == (if importOk then library else null)
      ensures r.Settled? ==>
        var loaded := old(mermaidInstance) != null || importOk;
        var name := Str(ThemeName(theme.GetOr(Light)));
        var changed := loaded && ConfigTheme(old(config.entries)) != name;
        lastValidResult == Settle(old(lastValidResult), if loaded then rendered else None) &&
        config.entries == (if changed then old(config.entries)["theme" := name] else old(config.entries)) &&
        (!loaded ==> unchanged(library)) &&
        (changed ==> library.options == ThemeOptions(config.entries, theme.GetOr(Light))) &&
        (!changed && old(mermaidInstance) == null && importOk ==> library.options == LoadOptions(config.entries)) &&
        (!changed && old(mermaidInstance) != null ==> library.options == old(library.options)) &&
        library.initializations ==
          old(library.initializations) + (if old(mermaidInstance) == null && importOk then 1 else 0) + (if changed then 1 else 0)
    {
      var step := StartLoad();
      var engine: Engine;
      match step {
        case Cached(e) =>
          engine := e;
        case MustWait =>
          return Pending;
        case Started =>
          var loaded := CompleteLoad(importOk);
          if loaded.None? {
            return Settled(lastValidResult);
          }
          engine := loaded.value;
      }
      var th := theme.GetOr(Light);
      if ConfigTheme(config.entries) != Str(ThemeName(th)) {
        config.entries := config.entries["theme" := Str(ThemeName(th))];
        engine.Initialize(ThemeOptions(config.entries, th));
      }
      match rendered {
        case Some(svg) =>
          lastValidResult := svg;
          return Settled(svg);
        case None =>
          return Settled(lastValidResult);
      }
    }
  }

  /** What a series of settled calls returns, each call a success with its SVG or a failure. */
  function Outputs(cache: string, calls: seq<Option<string>>): (out: seq<string>)
    ensures |out| == |calls|
    decreases |calls|
  {
    if calls == [] then []
    else
      var next := Settle(cache, calls[0]);
      [next] + Outputs(next, calls[1..])
  }

  /** The SVG of the most recent success among `calls`, or `initial` when there was none. */
  function LatestSuccess(initial: string, calls: seq<Option<string>>): string
    decreases |calls|
  {
    if calls == [] then initial
    else if calls[|calls| - 1].Some? then calls[|calls| - 1].value
    else LatestSuccess(initial, calls[..|calls| - 1])
  }

  lemma {:induction false} LatestSuccessCons(initial: string, first: Option<string>, rest: seq<Option<string>>)
    ensures LatestSuccess(initial, [first] + rest) == LatestSuccess(Settle(initial, first), rest)
    decreases |rest|
  {
    if rest != [] {
      var all := [first] + rest;
      assert all[..|all| - 1] == [first] + rest[..|rest| - 1];
      LatestSuccessCons(initial, first, rest[..|rest| - 1]);
    } else {
      assert ([first] + rest)[..0] == [];
    }
  }

  /**
   * Every call answers with the SVG of the latest success so far, counting
   * itself; before any success, with the initial cache.
   */
  lemma {:induction false} OutputsAreLatestSuccess(cache: string, calls: seq<Option<string>>, k: nat)
    requires k < |calls|
    ensures Outputs(cache, calls)[k] == LatestSuccess(cache, calls[..k + 1])
    decreases |calls|
  {
    var next := Settle(cache, calls[0]);
    assert calls[..k + 1] == [calls[0]] + calls[1..][..k];
    LatestSuccessCons(cache, calls[0], calls[1..][..k]);
    if k == 0 {
      assert calls[1..][..0] == [];
    } else {
      OutputsAreLatestSuccess(next, calls[1..], k - 1);
    }
  }

  /** Once some call has succeeded with a non-empty SVG, no later call answers with "". */
  lemma NeverRegressesToEmpty(cache: string, calls: seq<Option<string>>, j: nat, k: nat)
    requires j <= k < |calls|
    requires calls[j].Some? && calls[j].value != ""
    requires forall i :: j <= i <= k && calls[i].Some? ==> calls[i].value != ""
    ensures Outputs(cache, calls)[k] != ""
  {
    OutputsAreLatestSuccess(cache, calls, k);
    LatestSuccessFound(cache, calls[..k + 1], j);
  }

  lemma {:induction false} LatestSuccessFound(initial: string, calls: seq<Option<string>>, j: nat)
    requires j < |calls| && calls[j].Some?
    ensures exists i :: j <= i < |calls| && calls[i].Some? && LatestSuccess(initial, calls) == calls[i].value
    decreases |calls|
  {
    var last := |calls| - 1;
    if !calls[last].Some? {
      LatestSuccessFound(initial, calls[..last], j);
      var i :| j <= i < last && calls[..last][i].Some? && LatestSuccess(initial, calls[..last]) == calls[..last][i].value;
      assert calls[i] == calls[..last][i];
    }
  }

  /** Before any success every call answers with the initial cache, "" for a new service. */
  lemma {:induction false} EmptyBeforeFirstSuccess(calls: seq<Option<string>>, k: nat)
    requires k < |calls|
    requires forall i :: 0 <= i <= k ==> calls[i].None?
    ensures Outputs("", calls)[k] == ""
  {
    OutputsAreLatestSuccess("", calls, k);
    NoSuccessLatest("", calls[..k + 1]);
  }

  lemma {:induction false} NoSuccessLatest(initial: string, calls: seq<Option<string>>)
    requires forall i :: 0 <= i < |calls| ==> calls[i].None?
    ensures LatestSuccess(initial, calls) == initial
    decreases |calls|
  {
    if calls != [] {
      NoSuccessLatest(initial, calls[..|calls| - 1]);
    }
  }

  /**
   * The scenario of a diagram that first renders (SVG `a`) and then fails on
   * a truncated chunk: the second call answers with `a`.
   */
  method FallbackScenario(a: string)
  {
    var library := new Engine();
    var config := new Config(map[]);
    var service := new MermaidService(library, config);
    var first := service.RenderMermaid(None, true, Some(a));
    assert first == Settled(a);
    var second := service.RenderMermaid(None, true, None);
    assert second == Settled(a);
  }

  /**
   * Two services over the one library object: after the second renders in
   * light, the library is configured "light"; the first service's config
   * still says "dark", so its next dark render does not reconfigure it.
   */
  method SharedLibraryScenario(a: string, b: string)
  {
    var library := new Engine();
    var darkConfig := new Config(map[]);
    var lightConfig := new Config(map[]);
    var first := new MermaidService(library, darkConfig);
    var second := new MermaidService(library, lightConfig);
    var r1 := first.RenderMermaid(Some(Dark), true, Some(a));
    assert library.options["theme"] == Str("dark");
    var r2 := second.RenderMermaid(None, true, Some(b));
    assert library.options["theme"] == Str("light");
    var r3 := first.RenderMermaid(Some(Dark), true, Some(a));
    assert darkConfig.entries["theme"] == Str("dark");
    assert library.options["theme"] == Str("light");
  }
}
