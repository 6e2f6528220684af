/** The load state the home page and the full listing index each keep: the
    enriched list on screen and whether the load is still in flight. */
module Loader {
  import opened Aggregation

  class ListingsLoader {
    var listings: seq<Listing>
    var loading: bool

    /** A freshly mounted page: nothing listed, load pending. */
    constructor ()
      ensures listings == [] && loading
    {
      listings := [];
      loading := true;
    }

    /** `fetchListings`: the awaits of one page load, in order. The list is
        replaced only when every step settles; any throw leaves it as it was,
        and `loading` ends false on every path. Returns the requested URLs. */
    method FetchListings(r: Responses) returns (requests: seq<string>)
      requires r.Complete()
      modifies this
      ensures !loading
      ensures listings == if Load(r).Some? then Load(r).value else old(listings)
      ensures requests == Requests(r)
    {
      requests := [ListingsEndpoint];
      if r.listings.Err? {
        loading := false;
        return;
      }
      var items := r.listings.value;
      requests := requests + [ProfilesUrl(UniqueFids(items))];
      if r.profiles.Err? {
        loading := false;
        return;
      }
      var reply := r.profiles.value;
      if reply.UsersMissing? {
        // logging `profilesData.length` throws on the undefined `users`
        loading := false;
        return;
      }
      requests := requests + MetadataUrls(items);
      assert requests == Requests(r);
      listings := EnrichAll(items, reply.users, r.metadata);
      loading := false;
    }
  }
}
