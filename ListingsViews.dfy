/** What the home page and the full listing index render from their load
    state: a spinner while loading, then listing cards. */
module ListingsViews {
  import opened Aggregation
  import opened Loader

  datatype Screen = Spinner | Cards(shown: seq<Listing>)

  /** `listings.slice(0, 3)`: the first three in indexer order (the grid's
      heading calls them the last three). */
  function FirstThree<T>(xs: seq<T>): (shown: seq<T>)
    ensures |shown| == if |xs| < 3 then |xs| else 3
    ensures shown == xs[..|shown|]
  {
    if |xs| <= 3 then xs else xs[..3]
  }

  /** The home page: a spinner while loading, else the grid's first three cards. */
  function HomeView(page: ListingsLoader): (screen: Screen)
    reads page
    ensures screen.Spinner? <==> page.loading
    ensures screen.Cards? ==> |screen.shown| <= 3 && |screen.shown| <= |page.listings| && screen.shown == page.listings[..|screen.shown|]
    ensures screen.Cards? && |page.listings| >= 3 ==> |screen.shown| == 3
    ensures screen.Cards? && |page.listings| < 3 ==> screen.shown == page.listings
  {
    if page.loading then Spinner else Cards(FirstThree(page.listings))
  }

  /** The full listing index: a spinner while loading, else every card in order. */
  function IndexView(page: ListingsLoader): (screen: Screen)
    reads page
    ensures screen.Spinner? <==> page.loading
    ensures screen.Cards? ==> screen.shown == page.listings
  {
    if page.loading then Spinner else Cards(page.listings)
  }

  /** Mounting the index and letting its load settle: a spinner first, then
      one card per raw listing in indexer order, or no card at all when the
      load failed. */
  method IndexAfterLoad(r: Responses) returns (before: Screen, after: Screen)
    requires r.Complete()
    ensures before == Spinner
    ensures after.Cards?
    ensures Load(r).None? ==> after.shown == []
    ensures Load(r).Some? ==> after.shown == Load(r).value
    ensures Load(r).Some? ==>
              |after.shown| == |r.listings.value| &&
              forall i :: 0 <= i < |after.shown| ==> RawFields(after.shown[i]) == r.listings.value[i]
  {
    var page := new ListingsLoader();
    before := IndexView(page);
    var _ := page.FetchListings(r);
    after := IndexView(page);
    if Load(r).Some? {
      LoadEnrichesEachListing(r);
    }
  }

  /** Mounting the home page and letting its load settle: a spinner first,
      then the first three enriched listings (fewer if there are fewer), or
      no card when the load failed. */
  method HomeAfterLoad(r: Responses) returns (before: Screen, after: Screen)
    requires r.Complete()
    ensures before == Spinner
    ensures after.Cards?
    ensures Load(r).None? ==> after.shown == []
    ensures Load(r).Some? ==>
              var n := |r.listings.value|;
              |after.shown| == (if n < 3 then n else 3) &&
              after.shown == Load(r).value[..|after.shown|] &&
              forall i :: 0 <= i < |after.shown| ==> RawFields(after.shown[i]) == r.listings.value[i]
  {
    var page := new ListingsLoader();
    before := HomeView(page);
    var _ := page.FetchListings(r);
    after := HomeView(page);
    if Load(r).Some? {
      LoadEnrichesEachListing(r);
    }
  }
}
