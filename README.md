# JSPWiki search manager, modelled in Dafny

This project models `SearchManager`, the part of JSPWiki that sits between the
page store and a pluggable search provider. It covers four pieces of logic:

- choosing the provider from configuration;
- keeping the provider's index in step with page events (`actionPerformed`);
- the query surface (`findPages`, `reindexPage`, `removePage`);
- the two JSON-RPC operations of the inner class `JSONSearch`: page-name
  suggestions and a capped full-text search.

Modules, leaf to root:

| file | module | what it holds |
|---|---|---|
| wrappers.dfy | `Wrappers` | `Option`, `Result`, `Outcome` for Java's null and exceptions |
| sequences.dfy | `Sequences` | `Take`, `StartsWith`, subsequence embedding |
| wiki.dfy | `Wiki` | pages, the page store, `WikiEngine`, properties, the uninterpreted text helpers |
| provider.dfy | `Provider` | provider kinds, hits, the abstract index, the `SearchProvider` class |
| suggestions.dfy | `Suggestions` | the attachment split, normalised prefixes, the suggestion filter |
| transport.dfy | `Transport` | shaping provider hits into capped {page, score} records |
| selection.dfy | `Selection` | the provider-selection decision over two properties and a class registry |
| dispatch.dfy | `Dispatch` | the event switch as a function, with and without the missing `break` |
| search_manager.dfy | `Search` | the `SearchManager` and `JsonSearch` classes |

The classes are written imperatively, as the Java code is:

- `SearchManager` holds the `engine` and `provider` fields that
  `initialize` and `loadSearchProvider` assign.
- `SearchProvider` holds the index that `reindexPage` and `pageRemoved`
  change.
- `JsonSearch.GetSuggestions` (through its loop `JsonSearch.ScanNames`) and
  `JsonSearch.FindPages` build their lists in loops guarded by counters, as
  the Java does.

Each method is proved against a specification function. That function's
properties are proved as lemmas, or as its own `ensures` clauses.

Foreign code is kept uninterpreted:

- `MarkupParser.cleanLink`, `MarkupParser.wikifyLink`, `String.toLowerCase`
  and `TextUtil.isPositive` are function-valued fields of `Wiki.TextOps`.
- A provider's ranking and its own `initialize` are the functions of a
  `Provider.Backend`.
- Class loading by reflection is a `Selection.Registry`: a map from class
  name to lookup outcome. A name missing from the map means the class was
  not found.
- A provider's I/O state is one `healthy` flag. When it is false, every
  provider operation raises `ProviderException` and the index is unchanged.
- The store's `getPage` either raises `ProviderException` (store not
  healthy), raises `PageNotFoundException`, or returns the page.

## Where the code and the documented design differ (the model follows the code)

- A delete request does not leave the page out of the index. The
  NODE_DELETE_REQUEST case has no `break`, so it falls through into the
  NODE_SAVED case and reindexes the page (see Findings).
- Selection does not always fall back. A configured class that loads but is
  not a `SearchProvider` fails the cast. That `ClassCastException` is not
  caught, so it escapes `initialize` and the provider field keeps its old
  value (`Selection.Decision.Escape`).
- When a lookup fails, an already-set provider is kept (the null test at
  SearchManager.java lines 283-287). A basic provider is installed only
  when none is set.
- In the delete case, a `ProviderException` from `getPage` is swallowed too.
  Control then falls through to the NODE_SAVED case.
- Both JSON-RPC operations test the argument's length before any `try`
  (lines 109 and 168). A null `wikiName` or `searchString` therefore raises a
  `NullPointerException` out of the RPC endpoint instead of giving an empty
  list.

## Model

All source paths are under `src/java/org/apache/wiki/search/`.

Seven functions are the definitions of the abstractions above and carry no
contract of their own: `Transport.QueryFlags` (lines 174-177: flags 0 for a
Lucene provider, none otherwise), `Selection.FindClass` (a name the registry
lacks is not found), `Selection.GetProperty` (`getProperty` with a default),
`Wiki.Fetch` (`getPage` against the store), `Wiki.WikiEngine.KnownNames`
(`findCreated`), `Provider.SearchProvider.Results` (a healthy provider's
ranking of its index) and `Suggestions.Matches` (the `startsWith` test of
line 141). The methods call them directly, as the Java calls into the
engine and the provider. The members below state their properties.

| member | source | states |
|---|---|---|
| Suggestions.IndexOf | src/java/org/apache/wiki/search/SearchManager.java:114 | `indexOf("/")`: -1 exactly when there is no '/', otherwise a position holding '/' with none before it |
| Suggestions.SplitAttachment | src/java/org/apache/wiki/search/SearchManager.java:113-119 | the fragment is page part followed by attachment part; the page part has no '/'; the attachment part is empty or starts with '/' |
| Suggestions.SplitAttachmentUnique | src/java/org/apache/wiki/search/SearchManager.java:113-119 | those three properties determine the split uniquely: it is the split at the first '/' |
| Suggestions.NormalizedPrefixes | src/java/org/apache/wiki/search/SearchManager.java:113-123 | with no '/' the prefixes are the lower-cased `cleanLink` and `wikifyLink` of the whole fragment; with the first '/' at `pos`, only `w[..pos]` goes through `cleanLink`/`wikifyLink`, and the lower-cased `w[pos..]` is appended to both |
| Suggestions.MatchingNames | src/java/org/apache/wiki/search/SearchManager.java:137-145 | the uncapped filter: every kept name is a known name whose lower-cased form starts with one of the prefixes, and every such known name is kept |
| Suggestions.MatchingNamesAppend | src/java/org/apache/wiki/search/SearchManager.java:136-146 | filtering a concatenation is the concatenation of the filtered parts, so a scan stopped early is a prefix of the full filter |
| Suggestions.MatchingNamesEmbedded | src/java/org/apache/wiki/search/SearchManager.java:137-145 | the kept names sit at strictly increasing positions of the known-name order |
| Suggestions.MatchPositionsExact | src/java/org/apache/wiki/search/SearchManager.java:137-145 | those positions are exactly the positions holding a matching name, so a name listed twice is kept twice |
| Suggestions.Suggest | src/java/org/apache/wiki/search/SearchManager.java:103-152 | at most `maxLength` names; none for an empty fragment or a failed `findCreated`; each known, each matching a prefix |
| Suggestions.SuggestInOrder | src/java/org/apache/wiki/search/SearchManager.java:136-146 | the suggestions are a subsequence of the known names' iteration order |
| Suggestions.SuggestMaximal | src/java/org/apache/wiki/search/SearchManager.java:136-146 | the suggestions are the first min(maxLength, #matches) matches, so the scan stops exactly at the cap; below the cap every matching name is included |
| Search.JsonSearch.GetSuggestions | src/java/org/apache/wiki/search/SearchManager.java:103-152 | builds the two prefixes and reads `findCreated()`, a failure counting as no names; returns exactly `Suggest` of the fragment, the engine's known names and the cap |
| Search.JsonSearch.ScanNames | src/java/org/apache/wiki/search/SearchManager.java:136-146 | the counted loop returns the first `maxLength` names of the full filter over the names, in their order |
| Transport.NonNullRun | src/java/org/apache/wiki/search/SearchManager.java:180-186 | the number of leading hits that have a page; the next hit, if any, has a null page, where `getPage().getName()` raises |
| Transport.Shape | src/java/org/apache/wiki/search/SearchManager.java:179-187 | at most `maxLength` records; record `k` carries the name and score of hit `k`; the list stops only at the cap, at the end of the hits, or at a hit whose page is null |
| Transport.TransportHits | src/java/org/apache/wiki/search/SearchManager.java:166-192 | an empty query or a provider exception gives no records; if every hit has a page, the result has min(maxLength, #hits) records |
| Search.JsonSearch.FindPages | src/java/org/apache/wiki/search/SearchManager.java:161-198 | the loop returns exactly `TransportHits` of the provider's answer, raising nothing |
| Selection.Decide | src/java/org/apache/wiki/search/SearchManager.java:243-289 | a present `jspwiki.useLucene` always installs Lucene or Basic; the only fault raised is the cast failure of the configured class name |
| Selection.UseLuceneDecidesAlone | src/java/org/apache/wiki/search/SearchManager.java:243-260 | with `jspwiki.useLucene` present, neither `jspwiki.searchProvider` nor the registry changes the decision, and a provider is always installed |
| Selection.UseLuceneChoosesKind | src/java/org/apache/wiki/search/SearchManager.java:247-259 | a positive `jspwiki.useLucene` gives Lucene; any other value gives Basic |
| Selection.DefaultIsLucene | src/java/org/apache/wiki/search/SearchManager.java:262-263 | with neither property present, the Lucene provider's class name is looked up |
| Selection.LoadedClassInstalled | src/java/org/apache/wiki/search/SearchManager.java:265-268 | a class the registry loads is installed, whatever its kind |
| Selection.FailedLookupFallsBack | src/java/org/apache/wiki/search/SearchManager.java:270-287 | not found, not instantiable or not accessible: fall back, raising nothing |
| Selection.OnlyCastFailureEscapes | src/java/org/apache/wiki/search/SearchManager.java:243-289 | selection raises if and only if `jspwiki.useLucene` is absent and the configured class is not a search provider |
| Selection.UnknownClassFallsBack | src/java/org/apache/wiki/search/SearchManager.java:265-287 | any class name missing from the registry, configured as `jspwiki.searchProvider`, leads to the fallback, whatever the other properties |
| Search.SearchManager.LoadSearchProvider | src/java/org/apache/wiki/search/SearchManager.java:237-289 | installs a fresh provider of the decided kind. On the fallback it keeps the set provider or installs a fresh Basic one. On the cast failure it raises and changes nothing. Whenever it returns normally the provider is non-null |
| Search.SearchManager.Initialize | src/java/org/apache/wiki/search/SearchManager.java:209-235 | sets the engine and selects the provider. Only the cast failure is raised. The provider's own init errors are swallowed: the provider is ready exactly when its init succeeded |
| Search.SearchManager.FindPages | src/java/org/apache/wiki/search/SearchManager.java:311-317 | a null query is sent to the provider as the empty string; the provider's answer or error is returned unchanged |
| Search.SearchManager.RemovePage | src/java/org/apache/wiki/search/SearchManager.java:323-333 | the page is dropped from the index when the provider is healthy; a provider error is swallowed, leaving the index unchanged |
| Search.SearchManager.ReindexPage | src/java/org/apache/wiki/search/SearchManager.java:340-343 | the page is indexed when the provider is healthy; otherwise the error is returned to the caller and the index is unchanged |
| Search.SearchManager.ReindexLatest | src/java/org/apache/wiki/search/SearchManager.java:380-401 | the NODE_SAVED block: re-fetch and reindex; not-found and provider errors are swallowed |
| Search.SearchManager.ActionPerformed | src/java/org/apache/wiki/search/SearchManager.java:350-403 | the new index and the outcome are those of `Dispatch.Handle`, including the fall-through from delete into save |
| Dispatch.SavedBlock | src/java/org/apache/wiki/search/SearchManager.java:380-401 | the NODE_SAVED block changes at most the entry for the event's path, and any new value there is the page a readable store holds at that path |
| Dispatch.DeleteBlock | src/java/org/apache/wiki/search/SearchManager.java:361-377 | the delete block fails exactly when a readable store lacks the page, with the internal error naming it; otherwise it only removes entries, and with store and provider readable it removes the page's |
| Dispatch.Handle | src/java/org/apache/wiki/search/SearchManager.java:350-403 | non-page events change nothing and raise nothing; a page event changes at most the entry for its path; a raised error leaves the index unchanged |
| Dispatch.IgnoredEventsChangeNothing | src/java/org/apache/wiki/search/SearchManager.java:352-358 | non-page events and page events of other types leave the index unchanged and raise nothing |
| Dispatch.SavedReindexesLatest | src/java/org/apache/wiki/search/SearchManager.java:380-391 | NODE_SAVED on an existing page indexes the store's current version of it and changes no other entry |
| Dispatch.SavedMissingIgnored | src/java/org/apache/wiki/search/SearchManager.java:392-395 | NODE_SAVED on a missing page changes nothing and raises nothing |
| Dispatch.DeleteMissingIsFatal | src/java/org/apache/wiki/search/SearchManager.java:368-371 | NODE_DELETE_REQUEST on a page the store does not have raises the internal error; the index is unchanged |
| Dispatch.DeleteFallsThroughToReindex | src/java/org/apache/wiki/search/SearchManager.java:361-401 | NODE_DELETE_REQUEST on an existing page removes it, then by the fall-through reindexes the re-fetched version: the page ends up indexed |
| Dispatch.ErrorsContained | src/java/org/apache/wiki/search/SearchManager.java:363-400 | a provider or store error leaves the index unchanged. The handler raises exactly when a delete request names a page the store does not have |
| Dispatch.LastFetchWins | src/java/org/apache/wiki/search/SearchManager.java:361-401 | a run of saves and delete requests for one path, each handled against the store of its own moment: the path's entry is the page from the last fetch that found it, or is untouched when no fetch did; every other path is unchanged |
| Dispatch.GhostEntryAfterDelete | src/java/org/apache/wiki/search/SearchManager.java:361-401 | a save, a delete request, then a save once the store has dropped the page: the page's entry is still in the index |
| Dispatch.HandleIntended | src/java/org/apache/wiki/search/SearchManager.java:358-402 | the switch with the `break`: the same guarantees as `Handle`, and a delete request that raises nothing, with store and provider readable, leaves no entry for the page |
| Dispatch.IntendedDeleteRemoves | src/java/org/apache/wiki/search/SearchManager.java:360-377 | with a `break` closing the delete case, a delete request removes exactly that page's entry |
| Dispatch.IntendedDiffersOnlyOnDelete | src/java/org/apache/wiki/search/SearchManager.java:358-402 | the corrected switch agrees with the code on every event except a delete request whose delete block succeeds; a delete request that raises the internal error behaves the same in both |
| Dispatch.SaveThenDeleteKeepsEntry | src/java/org/apache/wiki/search/SearchManager.java:361-401 | as written, a page that is saved and then has a delete request is still indexed afterwards |
| Dispatch.SaveThenDeleteIntended | src/java/org/apache/wiki/search/SearchManager.java:360-377 | with the `break`, the same two events leave no entry for the page |
| Provider.Reindexed | src/java/org/apache/wiki/search/SearchManager.java:342 | after a reindex the page's path maps to that page version, and every other entry is unchanged |
| Provider.Removed | src/java/org/apache/wiki/search/SearchManager.java:327 | after a removal the page's path has no entry, and every other entry is unchanged |
| Provider.ReindexIdempotent | src/java/org/apache/wiki/search/SearchManager.java:342 | reindexing the same page version twice gives the same index as reindexing it once |
| Provider.RemoveAbsentIsNoOp | src/java/org/apache/wiki/search/SearchManager.java:327 | removing a page that is not indexed leaves the index unchanged |
| Provider.SearchProvider.ReindexPage | src/java/org/apache/wiki/search/SearchManager.java:342 | succeeds exactly when healthy, and then indexes the page; on failure the index is unchanged |
| Provider.SearchProvider.PageRemoved | src/java/org/apache/wiki/search/SearchManager.java:327 | succeeds exactly when healthy, and removing an absent page is then not an error; on failure the index is unchanged |
| Provider.SearchProvider.Initialize | src/java/org/apache/wiki/search/SearchManager.java:223-234 | raises the backend's init error for these properties, if there is one; the provider is ready exactly when no error was raised |

## Findings

| source | as written | input that shows it | evidently intended | confidence | as-written member | corrected member |
|---|---|---|---|---|---|---|
| src/java/org/apache/wiki/search/SearchManager.java:361-380 | the NODE_DELETE_REQUEST case has no `break`. After `removePage` it falls into the NODE_SAVED case, which re-fetches the page (it still exists when the request is made) and reindexes it | page P in the store; a NODE_SAVED event for P, then a NODE_DELETE_REQUEST event for P: P is still indexed, and stays indexed once the store deletes it | the delete request removes P from the index, as the comment at line 360 says | high on the shape of the code, medium on intent; not executed | Dispatch.SaveThenDeleteKeepsEntry | Dispatch.IntendedDeleteRemoves |

`Dispatch.HandleIntended` is the corrected definition: the same switch, with
the `break`. `Search.SearchManager.ActionPerformed` still follows the code as
written, because that is the behaviour of the system being modelled.

## Left out

- `AbstractPageActionBean` is not part of this model. It only forwards
  `getPage`/`setPage` to the action context and edits a session attribute.
- Logging and `StopWatch` timing (lines 105-106, 149-150, 163-164, 195-196)
  have no effect on results.
- Event-listener subscription and JSON-RPC registration in `initialize`
  (lines 217-219) are framework wiring and are not modelled.
- The JSON-RPC operations require the engine (`GetSuggestions`) or the
  provider (`FindPages`) to be set. The RPC object is registered only after
  both are set, at lines 212-219.
- Reflection (`ClassUtil.findClass`, `newInstance`) is replaced by the
  registry map. `ClassUtil`'s search of the `org.apache.wiki.search` package
  for short names is folded into the map's keys.
- The bodies of `cleanLink`, `wikifyLink`, `toLowerCase` and `isPositive`
  are foreign code. The Lucene and basic providers' ranking, tokenisation,
  storage layout and `initialize` are foreign code too. All of them stay
  uninterpreted.
- A provider's failures are one health flag. Partial writes are not
  modelled, and neither is a failure of one page but not another.
- Unchecked exceptions raised inside foreign code are not modelled, apart
  from two: the null page that makes the transport loop raise, and the
  failed cast during selection.
- `instanceof LuceneSearchProvider` is modelled as the provider kind being
  `Lucene`. A custom subclass of the Lucene provider counts as `Custom` and
  is queried without flags.
- Concurrent event delivery is not modelled; calls are sequential. Each
  delivery is handled on its own, against the store of its moment
  (`Dispatch.HandleRun`), and the store is the same at both fetches of a
  fall-through.
- A null `wikiName` or `searchString` is not modelled: strings are values and
  are never null. The Java raises a `NullPointerException` there, at lines
  109 and 168, outside any `try`.
- `Search.JsonSearch.ScanNames` is the loop of `getSuggestions` written as a
  method of its own; the Java has it inline.
- A negative `maxLength` is excluded by a precondition, since
  `new ArrayList(maxLength)` would throw before anything else happens.
- `getSearchProvider` is modelled as the getter
  `Search.SearchManager.GetSearchProvider`. It has no contract of its own.
