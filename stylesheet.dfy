/**
 * The style sheet element's cache of compiled style sheets
 * (gaphor/core/modeling/stylesheet.py): one compiled sheet per colour
 * scheme, built from four sources and dropped whenever one of them changes.
 * A compiled sheet is an opaque value; its `serial` stands for its identity,
 * so that "the same object" and "a newly compiled one" can be told apart.
 */
module StyleSheets {
  import opened Wrappers

  /** `PrefersColorScheme`. */
  datatype ColorScheme = NoPreference | Light | Dark

  /** `CompiledStyleSheet(*sources, prefers_color_scheme=scheme)`, the `serial`-th one compiled. */
  datatype CompiledStyleSheet = CompiledStyleSheet(serial: nat, sources: seq<string>, scheme: ColorScheme)

  /** The events the element passes on to `Base.handle`, or is handed. */
  datatype ModelEvent = StyleSheetUpdated | AttributeUpdated(property: string) | OtherEvent

  /** `DEFAULT_STYLE_SHEET`. */
  const DefaultStyleSheet: string := "diagram {\n /* line-style: sloppy 0.3; */\n}\n"

  /** The rule that sets the system font family. */
  function FontRule(font: string): string {
    "diagram { font-family: " + font + " }"
  }

  /** The two attributes whose change invalidates the compiled sheets. */
  predicate InvalidatesCache(ev: ModelEvent) {
    ev.AttributeUpdated? && (ev.property == "styleSheet" || ev.property == "naturalLanguage")
  }

  class StyleSheet {
    /** `SYSTEM_STYLE_SHEET`, the text of the bundled `diagram.css`. */
    const systemStyleSheet: string
    var styleSheet: string
    var naturalLanguage: Option<string>
    var instantStyleDeclarations: string
    var systemFontFamily: string
    var compiledCache: map<ColorScheme, CompiledStyleSheet>
    /** How many sheets have been compiled: the serial the next one gets. */
    var compiled: nat
    /** The events passed on to `Base.handle`, in order. */
    var handled: seq<ModelEvent>

    /** The sources a compilation gets, in order: system sheet, font rule, user sheet, instant declarations. */
    function Sources(): seq<string>
      reads this
    {
      [systemStyleSheet, FontRule(systemFontFamily), styleSheet, instantStyleDeclarations]
    }

    /**
     * Every cached sheet was compiled from the current sources for the
     * scheme it is filed under, and before the next serial.
     */
    ghost predicate Coherent()
      reads this
    {
      forall s :: s in compiledCache ==>
        compiledCache[s].sources == Sources() && compiledCache[s].scheme == s && compiledCache[s].serial < compiled
    }

    /** A new style sheet: empty cache, no instant declarations, the "sans" font, the default user sheet. */
    constructor (systemStyleSheet: string)
      ensures Coherent()
      ensures this.systemStyleSheet == systemStyleSheet
      ensures compiledCache == map[] && instantStyleDeclarations == "" && systemFontFamily == "sans"
      ensures styleSheet == DefaultStyleSheet && naturalLanguage == None
      ensures compiled == 0 && handled == []
    {
      this.systemStyleSheet := systemStyleSheet;
      styleSheet := DefaultStyleSheet;
      naturalLanguage := None;
      instantStyleDeclarations := "";
      systemFontFamily := "sans";
      compiledCache := map[];
      compiled := 0;
      handled := [];
    }

    /**
     * `compile_style_sheet(scheme)`: the cached sheet for the scheme if
     * there is one, without compiling; otherwise a sheet newly compiled from
     * the current sources, filed under the scheme, with the other entries
     * left alone.  Either way it reflects the current sources.
     */
    method CompileStyleSheet(scheme: ColorScheme) returns (c: CompiledStyleSheet)
      requires Coherent()
      modifies this
      ensures Coherent()
      ensures c.sources == Sources() && c.scheme == scheme && scheme in compiledCache && compiledCache[scheme] == c
      ensures scheme in old(compiledCache) ==>
        c == old(compiledCache[scheme]) && compiledCache == old(compiledCache) && compiled == old(compiled)
      ensures scheme !in old(compiledCache) ==>
        c.serial == old(compiled) && compiled == old(compiled) + 1 &&
        compiledCache == old(compiledCache)[scheme := c]
      ensures Sources() == old(Sources()) && handled == old(handled)
      ensures styleSheet == old(styleSheet) && naturalLanguage == old(naturalLanguage)
    {
      if scheme in compiledCache {
        return compiledCache[scheme];
      }
      c := CompiledStyleSheet(compiled, Sources(), scheme);
      compiled := compiled + 1;
      compiledCache := compiledCache[scheme := c];
    }

    /** `_style_sheet_updated`: drop every compiled sheet and pass on `StyleSheetUpdated`. */
    method StyleSheetChanged()
      modifies this
      ensures Coherent()
      ensures compiledCache == map[] && handled == old(handled) + [StyleSheetUpdated]
      ensures Sources() == old(Sources()) && compiled == old(compiled)
      ensures styleSheet == old(styleSheet) && naturalLanguage == old(naturalLanguage)
      ensures systemFontFamily == old(systemFontFamily) && instantStyleDeclarations == old(instantStyleDeclarations)
    {
      compiledCache := map[];
      handled := handled + [StyleSheetUpdated];
    }

    /** The `instant_style_declarations` setter. */
    method SetInstantStyleDeclarations(declarations: string)
      modifies this
      ensures Coherent()
      ensures instantStyleDeclarations == declarations && compiledCache == map[]
      ensures handled == old(handled) + [StyleSheetUpdated]
      ensures systemFontFamily == old(systemFontFamily) && styleSheet == old(styleSheet)
      ensures naturalLanguage == old(naturalLanguage) && compiled == old(compiled)
    {
      instantStyleDeclarations := declarations;
      StyleSheetChanged();
    }

    /** The `system_font_family` setter. */
    method SetSystemFontFamily(font: string)
      modifies this
      ensures Coherent()
      ensures systemFontFamily == font && compiledCache == map[]
      ensures handled == old(handled) + [StyleSheetUpdated]
      ensures instantStyleDeclarations == old(instantStyleDeclarations) && styleSheet == old(styleSheet)
      ensures naturalLanguage == old(naturalLanguage) && compiled == old(compiled)
    {
      systemFontFamily := font;
      StyleSheetChanged();
    }

    /**
     * `handle(event)`: pass the event on; then, for an `AttributeUpdated` of
     * `styleSheet` or `naturalLanguage` only, drop the compiled sheets and
     * pass on `StyleSheetUpdated`.  Any other event leaves the cache alone.
     * Such an update may arrive after the attribute changed, while the
     * cached sheets are stale; handling it makes the cache coherent again.
     */
    method Handle(ev: ModelEvent)
      requires Coherent() || InvalidatesCache(ev)
      modifies this
      ensures Coherent()
      ensures Sources() == old(Sources()) && compiled == old(compiled)
      ensures styleSheet == old(styleSheet) && naturalLanguage == old(naturalLanguage)
      ensures systemFontFamily == old(systemFontFamily) && instantStyleDeclarations == old(instantStyleDeclarations)
      ensures InvalidatesCache(ev) ==> compiledCache == map[] && handled == old(handled) + [ev, StyleSheetUpdated]
      ensures !InvalidatesCache(ev) ==> compiledCache == old(compiledCache) && handled == old(handled) + [ev]
    {
      handled := handled + [ev];
      if InvalidatesCache(ev) {
        StyleSheetChanged();
      }
    }

    /**
     * Assigning the `styleSheet` attribute: the value is stored and the
     * element is handed `AttributeUpdated` for it, which empties the cache.
     */
    method SetStyleSheet(text: string)
      modifies this
      ensures Coherent()
      ensures styleSheet == text && compiledCache == map[]
      ensures handled == old(handled) + [AttributeUpdated("styleSheet"), StyleSheetUpdated]
      ensures naturalLanguage == old(naturalLanguage) && compiled == old(compiled)
      ensures systemFontFamily == old(systemFontFamily) && instantStyleDeclarations == old(instantStyleDeclarations)
    {
      styleSheet := text;
      Handle(AttributeUpdated("styleSheet"));
    }

    /** Assigning the `naturalLanguage` attribute, likewise. */
    method SetNaturalLanguage(language: Option<string>)
      modifies this
      ensures Coherent()
      ensures naturalLanguage == language && compiledCache == map[]
      ensures handled == old(handled) + [AttributeUpdated("naturalLanguage"), StyleSheetUpdated]
      ensures Sources() == old(Sources()) && compiled == old(compiled)
    {
      naturalLanguage := language;
      Handle(AttributeUpdated("naturalLanguage"));
    }
  }
}
