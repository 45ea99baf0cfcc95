/**
 * Capped result shaping (`JSONSearch.findPages`): the provider's hits are turned
 * into flat {page name, score} records, at most the requested number, and any
 * exception ends the list where it happened instead of reaching the caller.
 */
module Transport {
  import opened Wrappers
  import opened Wiki
  import opened Provider

  /** One record of the transport list: the `"page"` and `"score"` entries of its map. */
  datatype Hit = Hit(page: string, score: int)

  /** The flags the transport search passes: `0` to a Lucene provider, none to any other. */
  function QueryFlags(kind: ProviderKind): (flags: Option<int>)
  {
    if kind == Lucene then Some(0) else None
  }

  /**
   * How many hits can be turned into records before one whose page is null,
   * where `sr.getPage().getName()` raises.
   */
  function NonNullRun(rs: seq<SearchResult>): (n: nat)
    ensures n <= |rs|
    ensures forall k :: 0 <= k < n ==> rs[k].page.Some?
    ensures n < |rs| ==> rs[n].page.None?
  {
    if rs == [] || rs[0].page.None? then 0 else 1 + NonNullRun(rs[1..])
  }

  /** The record built from a hit with a page. */
  function ToHit(sr: SearchResult): (h: Hit)
    requires sr.page.Some?
  {
    Hit(sr.page.value.name, sr.score)
  }

  /**
   * The records collected from `rs` with cap `max`: entry `k` carries the name
   * and score of hit `k`, and the list ends at the cap, at the end of `rs` or
   * at the first hit without a page, whichever comes first.
   */
  function Shape(rs: seq<SearchResult>, max: nat): (hits: seq<Hit>)
    ensures |hits| <= max && |hits| <= |rs|
    ensures |hits| == max || |hits| == |rs| || rs[|hits|].page.None?
    ensures forall k :: 0 <= k < |hits| ==> rs[k].page.Some? && hits[k] == Hit(rs[k].page.value.name, rs[k].score)
  {
    var n := NonNullRun(rs);
    var m := if max < n then max else n;
    seq(m, k requires 0 <= k < m => ToHit(rs[k]))
  }

  /**
   * The transport answer to `query`: nothing for an empty query or a failed
   * provider query, the shaped hits otherwise.
   */
  function TransportHits(query: string, res: Result<seq<SearchResult>, ProviderError>, max: nat): (hits: seq<Hit>)
    ensures |hits| <= max
    ensures |query| == 0 || res.Failure? ==> hits == []
    ensures |query| > 0 && res.Success? && (forall k :: 0 <= k < |res.value| ==> res.value[k].page.Some?)
            ==> |hits| == if max < |res.value| then max else |res.value|
  {
    if |query| == 0 then []
    else match res
      case Failure(_) => []
      case Success(rs) => Shape(rs, max)
  }
}
