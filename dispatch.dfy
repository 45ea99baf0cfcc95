/**
 * Event dispatch (`actionPerformed`) as a function of the page store, the
 * provider's index and the provider's health. The NODE_DELETE_REQUEST case has
 * no `break`: after the removal, control runs on into the NODE_SAVED case,
 * which fetches the page again and reindexes it. `Handle` keeps that
 * fall-through; `HandleIntended` is the same switch with the `break`.
 */
module Dispatch {
  import opened Wrappers
  import opened Wiki
  import opened Provider

  /** `ContentEvent` types the manager distinguishes; every other code is `OtherType`. */
  datatype EventType = NodeSaved | NodeDeleteRequest | OtherType(code: int)

  /** A `WikiPageEvent` about a path, or any event that is not a page event. */
  datatype WikiEvent = PageEvent(kind: EventType, path: WikiPath) | OtherEvent

  /** `InternalWikiException("Page removed already!?! ...")`. */
  datatype EventError = PageRemovedAlready(path: WikiPath)

  /** The new index and how `actionPerformed` completed. */
  datatype Effect = Effect(index: Index, outcome: Outcome<EventError>)

  /** The NODE_SAVED block: fetch the latest version and reindex it; not-found and provider errors are swallowed. */
  function SavedBlock(store: PageStore, path: WikiPath, index: Index, healthy: bool): (r: Index)
    ensures PathsMatch(store) ==> r - {path} == index - {path}
    ensures path in r && (path !in index || r[path] != index[path]) ==>
              healthy && store.healthy && path in store.pages && r[path] == store.pages[path]
  {
    match Fetch(store, path)
    case Success(p) => if healthy then Reindexed(index, p) else index
    case Failure(_) => index
  }

  /**
   * The NODE_DELETE_REQUEST block up to its end: fetch and remove
   * (`removePage` swallows the provider's error); a missing page raises, a
   * store error is swallowed.
   */
  function DeleteBlock(store: PageStore, path: WikiPath, index: Index, healthy: bool): (r: Result<Index, EventError>)
    ensures r.Failure? <==> store.healthy && path !in store.pages
    ensures r.Failure? ==> r.error == PageRemovedAlready(path)
    ensures r.Success? ==> r.value.Keys <= index.Keys && forall q :: q in r.value ==> r.value[q] == index[q]
    ensures r.Success? && PathsMatch(store) && store.healthy && healthy ==> path !in r.value
  {
    match Fetch(store, path)
    case Success(p) => Success(if healthy then Removed(index, p) else index)
    case Failure(PageNotFound) => Failure(PageRemovedAlready(path))
    case Failure(PageProviderError) => Success(index)
  }

  /** `actionPerformed(event)` as written, with the fall-through. */
  function Handle(e: WikiEvent, store: PageStore, index: Index, healthy: bool): (r: Effect)
    ensures e.OtherEvent? ==> r == Effect(index, Pass)
    ensures e.PageEvent? && PathsMatch(store) ==> r.index - {e.path} == index - {e.path}
    ensures r.outcome.Fail? ==> r.index == index
  {
    match e
    case OtherEvent => Effect(index, Pass)
    case PageEvent(kind, path) =>
      match kind
      case NodeDeleteRequest =>
        (match DeleteBlock(store, path, index, healthy)
         case Failure(err) => Effect(index, Fail(err))
         case Success(index') => Effect(SavedBlock(store, path, index', healthy), Pass))
      case NodeSaved => Effect(SavedBlock(store, path, index, healthy), Pass)
      case OtherType(_) => Effect(index, Pass)
  }

  /** Events that are not page events, and page events of other types, change nothing. */
  lemma IgnoredEventsChangeNothing(e: WikiEvent, store: PageStore, index: Index, healthy: bool)
    requires e.OtherEvent? || e.kind.OtherType?
    ensures Handle(e, store, index, healthy) == Effect(index, Pass)
  {
  }

  /** NODE_SAVED on an existing page indexes the store's current version of it and nothing else. */
  lemma SavedReindexesLatest(path: WikiPath, store: PageStore, index: Index)
    requires store.healthy && path in store.pages && PathsMatch(store)
    ensures Handle(PageEvent(NodeSaved, path), store, index, true) == Effect(index[path := store.pages[path]], Pass)
  {
  }

  /** NODE_SAVED on a missing page is an expected race: nothing changes and nothing is raised. */
  lemma SavedMissingIgnored(path: WikiPath, store: PageStore, index: Index, healthy: bool)
    requires path !in store.pages
    ensures Handle(PageEvent(NodeSaved, path), store, index, healthy) == Effect(index, Pass)
  {
  }

  /** NODE_DELETE_REQUEST on a page the store does not have raises the internal error. */
  lemma DeleteMissingIsFatal(path: WikiPath, store: PageStore, index: Index, healthy: bool)
    requires store.healthy && path !in store.pages
    ensures Handle(PageEvent(NodeDeleteRequest, path), store, index, healthy) == Effect(index, Fail(PageRemovedAlready(path)))
  {
  }

  /**
   * NODE_DELETE_REQUEST on an existing page removes it and then, by the
   * fall-through, reindexes the version fetched again: the page ends up indexed.
   */
  lemma DeleteFallsThroughToReindex(path: WikiPath, store: PageStore, index: Index)
    requires store.healthy && path in store.pages && PathsMatch(store)
    ensures Handle(PageEvent(NodeDeleteRequest, path), store, index, true) == Effect(index[path := store.pages[path]], Pass)
    ensures path in Handle(PageEvent(NodeDeleteRequest, path), store, index, true).index
  {
  }

  /**
   * Provider and store errors stay inside the handler: with either one failing
   * the index is unchanged, and the only exception that leaves the handler is
   * the internal error for deleting a missing page.
   */
  lemma ErrorsContained(e: WikiEvent, store: PageStore, index: Index, healthy: bool)
    ensures !healthy || !store.healthy ==> Handle(e, store, index, healthy).index == index
    ensures Handle(e, store, index, healthy).outcome.Fail?
        <==> e.PageEvent? && e.kind == NodeDeleteRequest && store.healthy && e.path !in store.pages
  {
  }

  /** `getPage(path)` against `store` finds the page. */
  predicate Found(store: PageStore, path: WikiPath)
  {
    store.healthy && path in store.pages
  }

  /**
   * The index after a run of events delivered one after another, each handled
   * against the store as it is when that event is processed.
   */
  function HandleRun(run: seq<(WikiEvent, PageStore)>, index: Index, healthy: bool): (r: Index)
    decreases |run|
  {
    if run == [] then index
    else
      var (e, store) := run[|run| - 1];
      Handle(e, store, HandleRun(run[..|run| - 1], index, healthy), healthy).index
  }

  /** The last step of `run` whose store has the page at `path`, or -1. */
  function LastFound(run: seq<(WikiEvent, PageStore)>, path: WikiPath): (k: int)
    ensures -1 <= k < |run|
    ensures k >= 0 ==> Found(run[k].1, path)
    ensures forall j :: k < j < |run| ==> !Found(run[j].1, path)
    decreases |run|
  {
    if run == [] then -1
    else if Found(run[|run| - 1].1, path) then |run| - 1
    else LastFound(run[..|run| - 1], path)
  }

  /**
   * Saves and delete requests for one path, in any number and order, each
   * against the store of its own moment: the entry for that path is the page
   * from the last fetch that found it, or is untouched when no fetch did, and
   * every other path is as before. Because of the fall-through, a delete
   * request counts as such a fetch.
   */
  lemma {:induction false} LastFetchWins(run: seq<(WikiEvent, PageStore)>, path: WikiPath, index: Index)
    requires forall k :: 0 <= k < |run| ==> run[k].0 in {PageEvent(NodeSaved, path), PageEvent(NodeDeleteRequest, path)}
    requires forall k :: 0 <= k < |run| ==> PathsMatch(run[k].1)
    ensures var r := HandleRun(run, index, true);
            var k := LastFound(run, path);
            && (k >= 0 ==> path in r && r[path] == run[k].1.pages[path])
            && (k < 0 ==> r == index)
            && r - {path} == index - {path}
    decreases |run|
  {
    if run != [] {
      var init := run[..|run| - 1];
      var (e, store) := run[|run| - 1];
      assert forall k :: 0 <= k < |init| ==> init[k] == run[k];
      LastFetchWins(init, path, index);
      var r0 := HandleRun(init, index, true);
      if Found(store, path) {
        if e == PageEvent(NodeSaved, path) {
          SavedReindexesLatest(path, store, r0);
        } else {
          DeleteFallsThroughToReindex(path, store, r0);
        }
      } else {
        ErrorsContained(e, store, r0, true);
        if store.healthy {
          if e == PageEvent(NodeSaved, path) {
            SavedMissingIgnored(path, store, r0, true);
          } else {
            DeleteMissingIsFatal(path, store, r0, true);
          }
        }
        assert LastFound(run, path) == LastFound(init, path);
      }
    }
  }

  /** Saved, then the store drops the page: as written, nothing ever removes its entry. */
  lemma GhostEntryAfterDelete(p: WikiPage)
    ensures var before := PageStore(map[p.path := p], true);
            var after := PageStore(map[], true);
            var run := [(PageEvent(NodeSaved, p.path), before), (PageEvent(NodeDeleteRequest, p.path), before),
                        (PageEvent(NodeSaved, p.path), after)];
            HandleRun(run, map[], true) == map[p.path := p]
  {
    var before := PageStore(map[p.path := p], true);
    var after := PageStore(map[], true);
    var run := [(PageEvent(NodeSaved, p.path), before), (PageEvent(NodeDeleteRequest, p.path), before),
                (PageEvent(NodeSaved, p.path), after)];
    LastFetchWins(run, p.path, map[]);
  }

  /** `actionPerformed` with a `break` closing the NODE_DELETE_REQUEST case. */
  function HandleIntended(e: WikiEvent, store: PageStore, index: Index, healthy: bool): (r: Effect)
    ensures e.OtherEvent? ==> r == Effect(index, Pass)
    ensures e.PageEvent? && PathsMatch(store) ==> r.index - {e.path} == index - {e.path}
    ensures r.outcome.Fail? ==> r.index == index
    ensures e.PageEvent? && e.kind == NodeDeleteRequest && r.outcome.Pass? && PathsMatch(store) && store.healthy && healthy
            ==> e.path !in r.index
  {
    match e
    case OtherEvent => Effect(index, Pass)
    case PageEvent(kind, path) =>
      match kind
      case NodeDeleteRequest =>
        (match DeleteBlock(store, path, index, healthy)
         case Failure(err) => Effect(index, Fail(err))
         case Success(index') => Effect(index', Pass))
      case NodeSaved => Effect(SavedBlock(store, path, index, healthy), Pass)
      case OtherType(_) => Effect(index, Pass)
  }

  /** With the `break`, a delete request removes the page from the index and leaves every other entry. */
  lemma IntendedDeleteRemoves(path: WikiPath, store: PageStore, index: Index)
    requires store.healthy && path in store.pages && PathsMatch(store)
    ensures HandleIntended(PageEvent(NodeDeleteRequest, path), store, index, true) == Effect(index - {path}, Pass)
  {
  }

  /** The two definitions agree on every event except a successful delete request. */
  lemma IntendedDiffersOnlyOnDelete(e: WikiEvent, store: PageStore, index: Index, healthy: bool)
    requires !(e.PageEvent? && e.kind == NodeDeleteRequest && DeleteBlock(store, e.path, index, healthy).Success?)
    ensures HandleIntended(e, store, index, healthy) == Handle(e, store, index, healthy)
  {
  }

  /**
   * A page saved and then deleted: as written its entry survives the delete
   * request, so once the store drops the page the index still holds it.
   */
  lemma SaveThenDeleteKeepsEntry(p: WikiPage)
    ensures var store := PageStore(map[p.path := p], true);
            var afterSave := Handle(PageEvent(NodeSaved, p.path), store, map[], true).index;
            var afterDelete := Handle(PageEvent(NodeDeleteRequest, p.path), store, afterSave, true).index;
            p.path in afterDelete && afterDelete[p.path] == p
  {
  }

  /** With the `break`, the same two events leave no entry for the page. */
  lemma SaveThenDeleteIntended(p: WikiPage)
    ensures var store := PageStore(map[p.path := p], true);
            var afterSave := HandleIntended(PageEvent(NodeSaved, p.path), store, map[], true).index;
            var afterDelete := HandleIntended(PageEvent(NodeDeleteRequest, p.path), store, afterSave, true).index;
            p.path !in afterDelete
  {
  }
}
