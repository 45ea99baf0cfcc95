/**
 * Provider selection (`loadSearchProvider`). The deprecated `jspwiki.useLucene`
 * property, when present, decides alone; otherwise the class named by
 * `jspwiki.searchProvider` (by default the Lucene provider) is looked up in a
 * registry that stands for class loading and instantiation by reflection.
 */
module Selection {
  import opened Wiki
  import opened Provider

  const PropUseLucene := "jspwiki.useLucene"
  const PropSearchProvider := "jspwiki.searchProvider"
  const DefaultSearchProvider := "org.apache.wiki.search.LuceneSearchProvider"

  /** What finding and instantiating a class by name yields. */
  datatype ClassLookup =
    | Loaded(kind: ProviderKind)
    | ClassNotFound
    | NotInstantiable     // InstantiationException
    | IllegalAccess       // IllegalAccessException
    | NotASearchProvider  // the instance does not implement SearchProvider

  /** The classes reflection can reach, by name; a missing name is not found. */
  type Registry = map<string, ClassLookup>

  function FindClass(registry: Registry, name: string): (c: ClassLookup)
  {
    if name in registry then registry[name] else ClassNotFound
  }

  /** `properties.getProperty(key, default)`. */
  function GetProperty(properties: Properties, key: string, default: string): (value: string)
  {
    if key in properties then properties[key] else default
  }

  /** The provider class name consulted when `jspwiki.useLucene` is absent. */
  function ConfiguredClassName(properties: Properties): (name: string)
  {
    GetProperty(properties, PropSearchProvider, DefaultSearchProvider)
  }

  /** The exception `initialize` lets through: the cast to `SearchProvider` fails. */
  datatype InitFault = ClassCastFailure(className: string)

  /**
   * The outcome of `loadSearchProvider`: install a new provider of a kind; keep
   * the provider already set, or install a basic one when none is (the failed
   * lookups); or raise the cast failure, which nothing catches.
   */
  datatype Decision = Install(kind: ProviderKind) | KeepOrBasic | Escape(fault: InitFault)

  function Decide(properties: Properties, registry: Registry, isPositive: string -> bool): (d: Decision)
    ensures PropUseLucene in properties ==> d.Install? && (d.kind == Lucene || d.kind == Basic)
    ensures d.Escape? ==> d.fault == ClassCastFailure(ConfiguredClassName(properties))
  {
    if PropUseLucene in properties then
      if isPositive(properties[PropUseLucene]) then Install(Lucene) else Install(Basic)
    else
      var name := GetProperty(properties, PropSearchProvider, DefaultSearchProvider);
      match FindClass(registry, name)
      case Loaded(k) => Install(k)
      case NotASearchProvider => Escape(ClassCastFailure(name))
      case _ => KeepOrBasic
  }

  /** When `jspwiki.useLucene` is present, neither `jspwiki.searchProvider` nor the registry matters. */
  lemma UseLuceneDecidesAlone(properties: Properties, registry: Registry, registry': Registry,
                              isPositive: string -> bool, name: string)
    requires PropUseLucene in properties
    ensures Decide(properties, registry, isPositive)
         == Decide(properties[PropSearchProvider := name], registry', isPositive)
    ensures Decide(properties, registry, isPositive).Install?
  {
  }

  /** A present `jspwiki.useLucene` gives Lucene when it reads as positive and Basic otherwise. */
  lemma UseLuceneChoosesKind(properties: Properties, registry: Registry, isPositive: string -> bool)
    requires PropUseLucene in properties
    ensures isPositive(properties[PropUseLucene]) ==> Decide(properties, registry, isPositive) == Install(Lucene)
    ensures !isPositive(properties[PropUseLucene]) ==> Decide(properties, registry, isPositive) == Install(Basic)
  {
  }

  /** Otherwise a class the registry loads is installed, whatever its kind. */
  lemma LoadedClassInstalled(properties: Properties, registry: Registry, isPositive: string -> bool)
    requires PropUseLucene !in properties
    requires FindClass(registry, ConfiguredClassName(properties)).Loaded?
    ensures Decide(properties, registry, isPositive) == Install(FindClass(registry, ConfiguredClassName(properties)).kind)
  {
  }

  /** Class not found, not instantiable or not accessible: fall back, raising nothing. */
  lemma FailedLookupFallsBack(properties: Properties, registry: Registry, isPositive: string -> bool)
    requires PropUseLucene !in properties
    requires FindClass(registry, ConfiguredClassName(properties)) in {ClassNotFound, NotInstantiable, IllegalAccess}
    ensures Decide(properties, registry, isPositive) == KeepOrBasic
  {
  }

  /** The only way selection raises is a configured class that is not a search provider. */
  lemma OnlyCastFailureEscapes(properties: Properties, registry: Registry, isPositive: string -> bool)
    ensures Decide(properties, registry, isPositive).Escape?
        <==> PropUseLucene !in properties && FindClass(registry, ConfiguredClassName(properties)) == NotASearchProvider
  {
  }

  /** Without either property the default Lucene class name is looked up. */
  lemma DefaultIsLucene(properties: Properties, registry: Registry, isPositive: string -> bool)
    requires PropUseLucene !in properties && PropSearchProvider !in properties
    ensures Decide(properties, registry, isPositive)
         == Decide(map[PropSearchProvider := DefaultSearchProvider], registry, isPositive)
  {
  }

  /** A class name the registry cannot resolve falls back and never escapes. */
  lemma UnknownClassFallsBack(properties: Properties, registry: Registry, isPositive: string -> bool, name: string)
    requires PropUseLucene !in properties && name !in registry
    ensures Decide(properties[PropSearchProvider := name], registry, isPositive) == KeepOrBasic
  {
  }
}
