/**
 * The search provider contract (`SearchProvider`) as the manager sees it. A
 * provider's ranking and its own initialisation are foreign code, kept as the
 * functions of a `Backend`; its index is abstract state: the latest page
 * version it was asked to index, by path.
 */
module Provider {
  import opened Wrappers
  import opened Wiki

  /** Which implementation class the provider is an instance of. */
  datatype ProviderKind = Lucene | Basic | Custom(className: string)

  /** A hit: the page (which foreign code may leave null) and its score. */
  datatype SearchResult = SearchResult(page: Option<WikiPage>, score: int)

  /** The abstract index: the page version last indexed, by path. */
  type Index = map<WikiPath, WikiPage>

  /**
   * A backend's ranked answer to a native query over its index; the flags
   * argument is the Lucene provider's `findPages(query, flags)` extra, `None`
   * when the one-argument `findPages(query)` is used.
   */
  type Ranking = (Index, string, Option<int>) -> seq<SearchResult>

  /** The checked exceptions a provider's `initialize` may raise. */
  datatype InitError = NoRequiredProperty | InitIOError

  /** The foreign behaviour of one provider implementation. */
  datatype Backend = Backend(rank: Ranking, initFault: Properties -> Option<InitError>)

  /** The index after `reindexPage(page)` succeeds. */
  function Reindexed(index: Index, page: WikiPage): (r: Index)
    ensures page.path in r && r[page.path] == page
    ensures forall q :: q != page.path ==> (q in r <==> q in index)
    ensures forall q :: q != page.path && q in index ==> r[q] == index[q]
  {
    index[page.path := page]
  }

  /** The index after `pageRemoved(page)` succeeds. */
  function Removed(index: Index, page: WikiPage): (r: Index)
    ensures page.path !in r
    ensures forall q :: q != page.path ==> (q in r <==> q in index)
    ensures forall q :: q in r ==> r[q] == index[q]
  {
    index - {page.path}
  }

  /** Reindexing the same page version twice leaves the index as reindexing it once. */
  lemma ReindexIdempotent(index: Index, page: WikiPage)
    ensures Reindexed(Reindexed(index, page), page) == Reindexed(index, page)
  {
  }

  /** Removing a page that is not indexed leaves the index as it was. */
  lemma RemoveAbsentIsNoOp(index: Index, page: WikiPage)
    requires page.path !in index
    ensures Removed(index, page) == index
  {
  }

  /** One provider instance, as `newInstance()` creates it. */
  class SearchProvider {
    const kind: ProviderKind
    const backend: Backend
    /** The abstract index state. */
    var index: Index
    /** False while the provider's storage cannot be read or written: every operation raises. */
    var healthy: bool
    /** Whether the provider's own `initialize` completed. */
    var ready: bool

    constructor (kind: ProviderKind, backend: Backend)
      ensures this.kind == kind && this.backend == backend
      ensures index == map[] && healthy && !ready
    {
      this.kind := kind;
      this.backend := backend;
      index := map[];
      healthy := true;
      ready := false;
    }

    /** The answer of `findPages` to `query` with the given flags in the current state. */
    function Results(query: string, flags: Option<int>): (r: Result<seq<SearchResult>, ProviderError>)
      reads this
    {
      if healthy then Success(backend.rank(index, query, flags)) else Failure(ProviderError)
    }

    /** `initialize(engine, properties)`. */
    method Initialize(properties: Properties) returns (r: Outcome<InitError>)
      modifies this`ready
      ensures r.Pass? <==> backend.initFault(properties).None?
      ensures r.Fail? ==> r.error == backend.initFault(properties).value
      ensures ready == r.Pass?
    {
      var fault := backend.initFault(properties);
      if fault.Some? {
        r := Fail(fault.value);
      } else {
        r := Pass;
      }
      ready := r.Pass?;
    }

    /** `reindexPage(page)`: indexes this version of the page, or raises and changes nothing. */
    method ReindexPage(page: WikiPage) returns (r: Outcome<ProviderError>)
      modifies this`index
      ensures r.Pass? <==> healthy
      ensures index == if healthy then Reindexed(old(index), page) else old(index)
    {
      if healthy {
        index := Reindexed(index, page);
        r := Pass;
      } else {
        r := Fail(ProviderError);
      }
    }

    /** `pageRemoved(page)`: drops the page from the index (absent is not an error), or raises. */
    method PageRemoved(page: WikiPage) returns (r: Outcome<ProviderError>)
      modifies this`index
      ensures r.Pass? <==> healthy
      ensures index == if healthy then Removed(old(index), page) else old(index)
    {
      if healthy {
        index := Removed(index, page);
        r := Pass;
      } else {
        r := Fail(ProviderError);
      }
    }
  }
}
