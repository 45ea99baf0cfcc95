/**
 * The parts of the hosting wiki that the search core consumes: pages, the page
 * store reached through the engine, the reference manager's list of created
 * pages, configuration properties and the markup/text helpers. All of them are
 * external collaborators; only their observable results are modelled.
 */
module Wiki {
  import opened Wrappers

  /** A page path (`WikiPath`), compared by value. */
  type WikiPath = string

  /** A page as the store hands it out: where it lives, its name, version and text. */
  datatype WikiPage = WikiPage(path: WikiPath, name: string, version: nat, text: string)

  /** Configuration properties (`java.util.Properties`): an absent key reads as null. */
  type Properties = map<string, string>

  /** `ProviderException`: the store or an index could not be read or written. */
  datatype ProviderError = ProviderError

  /** The two exceptions `WikiEngine.getPage` can raise. */
  datatype PageError = PageNotFound | PageProviderError

  /**
   * The page store behind `WikiEngine.getPage`: the pages by path, and whether
   * the store can currently be read at all.
   */
  datatype PageStore = PageStore(pages: map<WikiPath, WikiPage>, healthy: bool)

  /** Every page lives under its own path. */
  predicate PathsMatch(store: PageStore)
  {
    forall q :: q in store.pages ==> store.pages[q].path == q
  }

  /** What `getPage(path)` returns or raises against `store`. */
  function Fetch(store: PageStore, path: WikiPath): (r: Result<WikiPage, PageError>)
  {
    if !store.healthy then Failure(PageProviderError)
    else if path in store.pages then Success(store.pages[path])
    else Failure(PageNotFound)
  }

  /**
   * Helpers of the hosting wiki whose definitions are not part of this model:
   * `MarkupParser.cleanLink`, `MarkupParser.wikifyLink`, `String.toLowerCase`
   * and `TextUtil.isPositive`. They are kept uninterpreted.
   */
  datatype TextOps = TextOps(
    cleanLink: string -> string,
    wikifyLink: string -> string,
    toLowerCase: string -> string,
    isPositive: string -> bool)

  /** The wiki engine, as far as the search core reaches into it. */
  class WikiEngine {
    /** The content manager's pages. */
    var store: PageStore
    /** The reference manager's created page names, in the iteration order of its set. */
    var createdNames: seq<string>
    /** False when the reference manager's `findCreated` raises `ProviderException`. */
    var referencesHealthy: bool

    constructor (store: PageStore, createdNames: seq<string>)
      ensures this.store == store && this.createdNames == createdNames && referencesHealthy
    {
      this.store := store;
      this.createdNames := createdNames;
      referencesHealthy := true;
    }

    /** What `getReferenceManager().findCreated()` returns or raises. */
    function KnownNames(): (r: Result<seq<string>, ProviderError>)
      reads this
    {
      if referencesHealthy then Success(createdNames) else Failure(ProviderError)
    }
  }
}
