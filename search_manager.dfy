/**
 * `SearchManager`: selects the provider, keeps its index in step with page
 * events, and offers the query surface; `JsonSearch` is its RPC adapter.
 */
module Search {
  import opened Wrappers
  import opened Sequences
  import opened Wiki
  import opened Provider
  import opened Suggestions
  import opened Transport
  import opened Selection
  import opened Dispatch

  class SearchManager {
    /** The markup and text helpers of the hosting wiki. */
    const text: TextOps
    /** The foreign behaviour of each provider implementation. */
    const backends: ProviderKind -> Backend
    var engine: WikiEngine?
    var provider: SearchProvider?

    /** Set up: `initialize` has set the engine and a provider. */
    predicate Ready()
      reads this
    {
      engine != null && provider != null
    }

    /** `new SearchManager()`: nothing is set until `initialize`. */
    constructor (text: TextOps, backends: ProviderKind -> Backend)
      ensures this.text == text && this.backends == backends
      ensures engine == null && provider == null
    {
      this.text := text;
      this.backends := backends;
      engine := null;
      provider := null;
    }

    /**
     * `loadSearchProvider(properties)`: installs the provider `Decide` names.
     * On a failed lookup an already set provider stays; otherwise a basic one
     * is installed. Only the cast failure is raised, and it leaves the field
     * as it was.
     */
    method LoadSearchProvider(properties: Properties, registry: Registry) returns (r: Outcome<InitFault>)
      modifies this`provider
      ensures match Decide(properties, registry, text.isPositive)
              case Install(k) =>
                && r == Pass && provider != null && fresh(provider)
                && provider.kind == k && provider.backend == backends(k)
                && provider.index == map[] && provider.healthy && !provider.ready
              case KeepOrBasic =>
                && r == Pass
                && (old(provider) != null ==> provider == old(provider))
                && (old(provider) == null ==>
                      && provider != null && fresh(provider)
                      && provider.kind == Basic && provider.backend == backends(Basic)
                      && provider.index == map[] && provider.healthy && !provider.ready)
              case Escape(fault) => r == Fail(fault) && provider == old(provider)
      ensures r.Pass? ==> provider != null
    {
      if PropUseLucene in properties {
        if text.isPositive(properties[PropUseLucene]) {
          provider := new SearchProvider(Lucene, backends(Lucene));
        } else {
          provider := new SearchProvider(Basic, backends(Basic));
        }
        return Pass;
      }
      var providerClassName := GetProperty(properties, PropSearchProvider, DefaultSearchProvider);
      var lookup := FindClass(registry, providerClassName);
      match lookup {
        case Loaded(k) =>
          provider := new SearchProvider(k, backends(k));
        case NotASearchProvider =>
          return Fail(ClassCastFailure(providerClassName));
        case _ =>
          // the three caught exceptions: logged, the field keeps its value
      }
      if provider == null {
        provider := new SearchProvider(Basic, backends(Basic));
      }
      r := Pass;
    }

    /**
     * `initialize(engine, properties)`: sets the engine, selects the provider
     * and initialises it; the provider's own initialisation errors are
     * swallowed, so only the cast failure of selection reaches the caller.
     */
    method Initialize(engine: WikiEngine, properties: Properties, registry: Registry) returns (r: Outcome<InitFault>)
      modifies this`engine, this`provider, if provider == null then {} else {provider}
      ensures this.engine == engine
      ensures r.Fail? <==> Decide(properties, registry, text.isPositive).Escape?
      ensures r.Fail? ==> provider == old(provider)
      ensures r.Fail? && old(provider) != null ==> old(provider).ready == old(provider.ready)
      ensures old(provider) != null && provider == old(provider) ==>
                provider.index == old(provider.index) && provider.healthy == old(provider.healthy)
      ensures old(provider) != null && provider != old(provider) ==>
                && old(provider).index == old(provider.index) && old(provider).healthy == old(provider.healthy)
                && old(provider).ready == old(provider.ready)
      ensures r.Pass? ==> Ready() && provider.ready == provider.backend.initFault(properties).None?
      ensures match Decide(properties, registry, text.isPositive)
              case Install(k) =>
                && provider != null && fresh(provider)
                && provider.kind == k && provider.backend == backends(k)
                && provider.index == map[] && provider.healthy
              case KeepOrBasic =>
                && (old(provider) != null ==> provider == old(provider))
                && (old(provider) == null ==>
                      && provider != null && fresh(provider)
                      && provider.kind == Basic && provider.backend == backends(Basic)
                      && provider.index == map[] && provider.healthy)
              case Escape(fault) => r == Fail(fault)
    {
      this.engine := engine;
      r := LoadSearchProvider(properties, registry);
      if r.Fail? {
        return;
      }
      var initialized := provider.Initialize(properties);
      // NoRequiredPropertyException and IOException are printed and dropped
    }

    /** `getSearchProvider()`. */
    function GetSearchProvider(): (p: SearchProvider?)
      reads this
    {
      provider
    }

    /** `findPages(query)`: a null query is the empty query; provider errors propagate. */
    method FindPages(query: Option<string>) returns (r: Result<seq<SearchResult>, ProviderError>)
      requires provider != null
      ensures query.None? ==> r == provider.Results("", None)
      ensures query.Some? ==> r == provider.Results(query.value, None)
    {
      var q := if query.None? then "" else query.value;
      r := provider.Results(q, None);
    }

    /** `removePage(page)`: asks the provider to drop the page; its error is logged only. */
    method RemovePage(page: WikiPage)
      requires provider != null
      modifies provider`index
      ensures provider.index == if provider.healthy then Removed(old(provider.index), page) else old(provider.index)
    {
      var ignored := provider.PageRemoved(page);
    }

    /** `reindexPage(page)`: the provider's error propagates. */
    method ReindexPage(page: WikiPage) returns (r: Outcome<ProviderError>)
      requires provider != null
      modifies provider`index
      ensures r.Pass? <==> provider.healthy
      ensures provider.index == if provider.healthy then Reindexed(old(provider.index), page) else old(provider.index)
    {
      r := provider.ReindexPage(page);
    }

    /** The NODE_SAVED case of `actionPerformed`. */
    method ReindexLatest(path: WikiPath)
      requires Ready()
      modifies provider`index
      ensures provider.index == SavedBlock(engine.store, path, old(provider.index), provider.healthy)
    {
      var got := Fetch(engine.store, path);
      if got.Success? {
        var ignored := ReindexPage(got.value);
      }
      // PageNotFoundException is swallowed, ProviderException logged
    }

    /** `actionPerformed(event)`, with the NODE_DELETE_REQUEST case falling through into NODE_SAVED. */
    method ActionPerformed(e: WikiEvent) returns (r: Outcome<EventError>)
      requires Ready()
      modifies provider`index
      ensures provider.index == Handle(e, engine.store, old(provider.index), provider.healthy).index
      ensures r == Handle(e, engine.store, old(provider.index), provider.healthy).outcome
    {
      if e.OtherEvent? {
        return Pass;
      }
      var path := e.path;
      match e.kind {
        case NodeDeleteRequest =>
          var got := Fetch(engine.store, path);
          match got {
            case Success(p) => RemovePage(p);
            case Failure(PageNotFound) => return Fail(PageRemovedAlready(path));
            case Failure(PageProviderError) =>
          }
          ReindexLatest(path);
        case NodeSaved =>
          ReindexLatest(path);
        case OtherType(_) =>
      }
      r := Pass;
    }
  }

  /** `SearchManager.JSONSearch`: the two transport-shaping operations offered over JSON-RPC. */
  class JsonSearch {
    const manager: SearchManager

    constructor (manager: SearchManager)
      ensures this.manager == manager
    {
      this.manager := manager;
    }

    /**
     * `getSuggestions(wikiName, maxLength)`: the first `maxLength` known page
     * names, in iteration order, whose lower-cased form starts with either
     * normalised prefix of `wikiName`.
     */
    method GetSuggestions(wikiName: string, maxLength: int) returns (list: seq<string>)
      requires maxLength >= 0
      requires manager.engine != null
      ensures list == Suggest(manager.text, wikiName, manager.engine.KnownNames(), maxLength)
    {
      list := [];
      if |wikiName| > 0 {
        var t := manager.text;
        var name := wikiName;
        var filename := "";
        var pos := IndexOf(name, '/');
        if pos >= 0 {
          filename := t.toLowerCase(name[pos..]);
          name := name[..pos];
        }
        var cleanWikiName := t.toLowerCase(t.cleanLink(name)) + filename;
        var oldStyleName := t.toLowerCase(t.wikifyLink(name)) + filename;
        ghost var pre := Prefixes(cleanWikiName, oldStyleName);
        PrefixesAtFirstSlash(t, wikiName, pos);

        var allPages: seq<string>;
        var found := manager.engine.KnownNames();
        if found.Success? {
          allPages := found.value;
        } else {
          allPages := [];
        }

        list := ScanNames(t, cleanWikiName, oldStyleName, allPages, maxLength);
      }
    }

    /**
     * The counted loop of `getSuggestions`: walk the names in order, keep each
     * whose lower-cased form starts with either prefix, stop at the cap.
     */
    method ScanNames(t: TextOps, cleanWikiName: string, oldStyleName: string, allPages: seq<string>, maxLength: nat)
      returns (list: seq<string>)
      ensures list == Take(MatchingNames(t, Prefixes(cleanWikiName, oldStyleName), allPages), maxLength)
    {
      ghost var pre := Prefixes(cleanWikiName, oldStyleName);
      list := [];
      var counter := 0;
      var i := 0;
      while i < |allPages| && counter < maxLength
        invariant 0 <= i <= |allPages|
        invariant list == MatchingNames(t, pre, allPages[..i])
        invariant counter == |list| <= maxLength
      {
        var p := allPages[i];
        assert allPages[..i + 1] == allPages[..i] + [p];
        MatchingNamesSnoc(t, pre, allPages[..i], p);
        i := i + 1;
        var pp := t.toLowerCase(p);
        if StartsWith(pp, cleanWikiName) || StartsWith(pp, oldStyleName) {
          list := list + [p];
          counter := counter + 1;
        }
      }
      ghost var all := MatchingNames(t, pre, allPages);
      if i < |allPages| {
        assert allPages == allPages[..i] + allPages[i..];
        MatchingNamesAppend(t, pre, allPages[..i], allPages[i..]);
        assert all[..|list|] == list;
      } else {
        assert allPages[..i] == allPages;
      }
      assert list == Take(all, maxLength);
    }

    /**
     * `findPages(searchString, maxLength)`: the first `maxLength` hits as
     * {page, score} records; an exception ends the list where it happened.
     */
    method FindPages(searchString: string, maxLength: int) returns (list: seq<Hit>)
      requires maxLength >= 0
      requires manager.provider != null
      ensures list == TransportHits(searchString, manager.provider.Results(searchString, QueryFlags(manager.provider.kind)), maxLength)
    {
      list := [];
      if |searchString| > 0 {
        var provider := manager.provider;
        var c: Result<seq<SearchResult>, ProviderError>;
        if provider.kind == Lucene {
          c := provider.Results(searchString, Some(0));
        } else {
          c := provider.Results(searchString, None);
        }
        if c.Success? {
          var rs := c.value;
          var count := 0;
          while count < |rs| && count < maxLength
            invariant 0 <= count <= |rs| && count <= maxLength
            invariant |list| == count
            invariant forall k :: 0 <= k < count ==> rs[k].page.Some? && list[k] == Hit(rs[k].page.value.name, rs[k].score)
          {
            var sr := rs[count];
            if sr.page.None? {
              // sr.getPage().getName() raises; the handler keeps what was collected
              break;
            }
            list := list + [Hit(sr.page.value.name, sr.score)];
            count := count + 1;
          }
          assert NonNullRun(rs) >= count;
        }
        // a failed provider query is caught and logged: the list stays empty
      }
    }
  }
}
