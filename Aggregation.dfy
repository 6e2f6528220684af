/** The listing aggregation join: raw listings from the indexer, the seller
    profiles of one bulk lookup, and one metadata outcome per listing become
    one display-ready record per listing. The home page and the full listing
    index run this same pipeline. Every network outcome is an input value. */
module Aggregation {
  import opened Common
  import opened Text

  /** A listing record as the indexer returns it. */
  datatype ListingData = ListingData(
    id: int,
    seller: string,
    fid: int,
    price: string,
    remainingSupply: int,
    metadata: string,
    isActive: bool,
    totalSales: int)

  /** A social profile as the bulk lookup returns it. */
  datatype ProfileData = ProfileData(fid: int, username: string, displayName: string, pfp: string)

  /** An enriched listing: every raw field, plus the resolved image and seller. */
  datatype Listing = Listing(
    id: int,
    seller: string,
    fid: int,
    price: string,
    remainingSupply: int,
    metadata: string,
    isActive: bool,
    totalSales: int,
    imageUrl: Option<string>,
    sellerProfile: Option<ProfileData>)

  /** The raw fields carried by an enriched listing. */
  function RawFields(l: Listing): ListingData {
    ListingData(l.id, l.seller, l.fid, l.price, l.remainingSupply, l.metadata, l.isActive, l.totalSales)
  }

  /** The object spread `{ ...raw, imageUrl, sellerProfile }`. */
  function Extend(raw: ListingData, imageUrl: Option<string>, profile: Option<ProfileData>): (l: Listing)
    ensures RawFields(l) == raw && l.imageUrl == imageUrl && l.sellerProfile == profile
  {
    Listing(raw.id, raw.seller, raw.fid, raw.price, raw.remainingSupply, raw.metadata,
            raw.isActive, raw.totalSales, imageUrl, profile)
  }

  // ----- Unique seller identifiers -----

  /** `listings.map(l => l.fid)`. */
  function Fids(items: seq<ListingData>): (fids: seq<int>)
    ensures |fids| == |items|
    ensures forall i :: 0 <= i < |items| ==> fids[i] == items[i].fid
  {
    if items == [] then [] else [items[0].fid] + Fids(items[1..])
  }

  predicate NoDuplicates(xs: seq<int>) {
    forall i, j :: 0 <= i < j < |xs| ==> xs[i] != xs[j]
  }

  /** `[...new Set(xs)]`: a set remembers insertion order, so each value is
      kept at its first occurrence and later repeats are dropped. */
  function Dedup(xs: seq<int>): (d: seq<int>)
    ensures forall x :: x in d <==> x in xs
    ensures NoDuplicates(d)
  {
    if xs == [] then []
    else
      var init := Dedup(xs[..|xs| - 1]);
      if xs[|xs| - 1] in init then init else init + [xs[|xs| - 1]]
  }

  /** The index at which `x` first occurs in `xs`. */
  function FirstIndex(xs: seq<int>, x: int): (k: nat)
    requires x in xs
    ensures k < |xs| && xs[k] == x && x !in xs[..k]
  {
    if xs[0] == x then 0 else 1 + FirstIndex(xs[1..], x)
  }

  lemma {:induction false} FirstIndexOfPrefix(xs: seq<int>, y: int, x: int)
    requires x in xs
    ensures FirstIndex(xs + [y], x) == FirstIndex(xs, x)
    decreases |xs|
  {
    if xs[0] != x {
      assert (xs + [y])[1..] == xs[1..] + [y];
      FirstIndexOfPrefix(xs[1..], y, x);
    }
  }

  /** The unique values come out in the order of their first occurrence. */
  lemma {:induction false} DedupFirstOccurrenceOrder(xs: seq<int>)
    ensures forall i, j :: 0 <= i < j < |Dedup(xs)| ==>
              FirstIndex(xs, Dedup(xs)[i]) < FirstIndex(xs, Dedup(xs)[j])
    decreases |xs|
  {
    if xs != [] {
      var init := xs[..|xs| - 1];
      var last := xs[|xs| - 1];
      assert xs == init + [last];
      DedupFirstOccurrenceOrder(init);
      var d0 := Dedup(init);
      var d := Dedup(xs);
      forall i, j | 0 <= i < j < |d|
        ensures FirstIndex(xs, d[i]) < FirstIndex(xs, d[j])
      {
        FirstIndexOfPrefix(init, last, d[i]);
        if j < |d0| {
          FirstIndexOfPrefix(init, last, d[j]);
        } else {
          // d[j] is `last`, seen for the first time at the end of xs
          assert d[j] == last && last !in init;
          assert FirstIndex(xs, last) == |init|;
        }
      }
    }
  }

  /** Every value of `xs` occurs exactly once in `Dedup(xs)`, and nothing else does. */
  lemma {:induction false} DedupCountsOnce(xs: seq<int>)
    ensures forall x :: multiset(Dedup(xs))[x] == if x in xs then 1 else 0
    decreases |xs|
  {
    if xs != [] {
      var init := xs[..|xs| - 1];
      var last := xs[|xs| - 1];
      assert xs == init + [last];
      DedupCountsOnce(init);
    }
  }

  /** The de-duplicated seller identifiers sent to the profile lookup. */
  function UniqueFids(items: seq<ListingData>): seq<int> {
    Dedup(Fids(items))
  }

  // ----- Profile lookup and fallback image -----

  /** `profiles.find(p => p.fid === fid)`. */
  function FindProfile(profiles: seq<ProfileData>, fid: int): (found: Option<ProfileData>)
    ensures found.None? <==> forall i :: 0 <= i < |profiles| ==> profiles[i].fid != fid
    ensures found.Some? ==>
              exists k :: 0 <= k < |profiles| && profiles[k] == found.value && profiles[k].fid == fid &&
                forall i :: 0 <= i < k ==> profiles[i].fid != fid
  {
    if profiles == [] then None
    else if profiles[0].fid == fid then Some(profiles[0])
    else
      var rest := FindProfile(profiles[1..], fid);
      if rest.Some? then
        ghost var k :| 0 <= k < |profiles[1..]| && profiles[1..][k] == rest.value && profiles[1..][k].fid == fid &&
                       forall i :: 0 <= i < k ==> profiles[1..][i].fid != fid;
        assert profiles[k + 1] == rest.value;
        rest
      else rest
  }

  const FallbackSeedPrefix: string := "https://picsum.photos/seed/"
  const FallbackSize: string := "/400/300"

  /** The placeholder image used when a listing's metadata cannot be read. */
  function FallbackImageUrl(id: int): string {
    FallbackSeedPrefix + Decimal(id) + FallbackSize
  }

  /** Distinct listings get distinct placeholder images. */
  lemma FallbackImageUrlInjective(a: int, b: int)
    requires FallbackImageUrl(a) == FallbackImageUrl(b)
    ensures a == b
  {
    var u := FallbackImageUrl(a);
    var n := |FallbackSeedPrefix|;
    assert |Decimal(a)| == |u| - n - |FallbackSize| == |Decimal(b)|;
    assert Decimal(a) == u[n..n + |Decimal(a)|] == Decimal(b);
    DecimalInjective(a, b);
  }

  // ----- Enrichment -----

  /** One listing's enrichment. A settled metadata fetch whose document can be
      read supplies `imageUrl` as it is, absent included; a failed fetch or
      parse, or a `null` document, gives the placeholder for the listing's id.
      The seller profile is looked up the same way in both cases. */
  function Enrich(raw: ListingData, profiles: seq<ProfileData>, meta: Outcome<MetadataDoc>): (l: Listing)
    ensures RawFields(l) == raw
    ensures l.sellerProfile == FindProfile(profiles, raw.fid)
    ensures meta.Ok? && meta.value.Doc? ==> l.imageUrl == meta.value.imageUrl
    ensures !(meta.Ok? && meta.value.Doc?) ==> l.imageUrl == Some(FallbackImageUrl(raw.id))
  {
    match meta
    case Ok(Doc(image)) => Extend(raw, image, FindProfile(profiles, raw.fid))
    case _ => Extend(raw, Some(FallbackImageUrl(raw.id)), FindProfile(profiles, raw.fid))
  }

  /** `Promise.all(listings.map(enrich))`: results are assembled by index. */
  function EnrichAll(items: seq<ListingData>, profiles: seq<ProfileData>, metas: seq<Outcome<MetadataDoc>>)
    : (ls: seq<Listing>)
    requires |metas| == |items|
    ensures |ls| == |items|
    ensures forall i :: 0 <= i < |items| ==> ls[i] == Enrich(items[i], profiles, metas[i])
  {
    seq(|items|, i requires 0 <= i < |items| => Enrich(items[i], profiles, metas[i]))
  }

  /** The settled network outcomes one page load sees. `profiles` is the
      parsed body of the bulk lookup; `metadata` holds one outcome per listing,
      in listing order. A listings reply without `items` is an `Err`, since
      logging its `length` throws before the lookup is requested. */
  datatype ProfilesReply = Users(users: seq<ProfileData>) | UsersMissing

  datatype Responses = Responses(
    listings: Outcome<seq<ListingData>>,
    profiles: Outcome<ProfilesReply>,
    metadata: seq<Outcome<MetadataDoc>>)
  {
    predicate Complete() {
      listings.Ok? ==> |metadata| == |listings.value|
    }
  }

  const ListingsEndpoint: string := "https://ponder.farbarter.com/listings"
  const ProfilesEndpoint: string := "https://farcaster.anky.bot/farcaster/user/bulk?fids="

  /** The bulk profile request for the given identifiers. */
  function ProfilesUrl(fids: seq<int>): string {
    ProfilesEndpoint + CommaList(fids)
  }

  function MetadataUrls(items: seq<ListingData>): (urls: seq<string>)
    ensures |urls| == |items|
    ensures forall i :: 0 <= i < |items| ==> urls[i] == MetadataUrl(items[i].metadata)
  {
    if items == [] then [] else [MetadataUrl(items[0].metadata)] + MetadataUrls(items[1..])
  }

  /** The URLs one page load requests, in the order it issues them: the
      indexer, then (if that settled) the profile lookup, then (if that
      settled with `users`) one metadata request per listing. */
  function Requests(r: Responses): seq<string> {
    [ListingsEndpoint] +
    match r.listings
    case Err(_) => []
    case Ok(items) =>
      [ProfilesUrl(UniqueFids(items))] +
      match r.profiles
      case Ok(Users(_)) => MetadataUrls(items)
      case _ => []
  }

  /** The list a page load produces, or `None` when the load throws out of
      its outer `try`. A lookup body without `users` leaves `profilesData`
      undefined, and logging its `length` throws before any metadata is
      requested, whatever the number of listings. */
  function Load(r: Responses): (result: Option<seq<Listing>>)
    requires r.Complete()
  {
    match r.listings
    case Err(_) => None
    case Ok(items) =>
      match r.profiles
      case Err(_) => None
      case Ok(UsersMissing) => None
      case Ok(Users(profiles)) => Some(EnrichAll(items, profiles, r.metadata))
  }

  // ----- Properties of the pipeline -----

  /** The load fails exactly when the listings fetch fails, the profile
      lookup fails, or the lookup's body has no `users`. */
  lemma LoadFailsExactly(r: Responses)
    requires r.Complete()
    ensures Load(r).None? <==>
              r.listings.Err? || r.profiles.Err? || r.profiles.value.UsersMissing?
  {
  }

  /** A successful load yields one record per raw listing, in input order;
      each keeps the raw fields, takes its image from its own metadata
      outcome (placeholder on failure) and its seller from the first matching
      profile. */
  lemma LoadEnrichesEachListing(r: Responses)
    requires r.Complete() && Load(r).Some?
    ensures r.listings.Ok? && r.profiles.Ok? && r.profiles.value.Users?
    ensures |Load(r).value| == |r.listings.value|
    ensures forall i :: 0 <= i < |r.listings.value| ==>
              var raw, l, meta := r.listings.value[i], Load(r).value[i], r.metadata[i];
              && RawFields(l) == raw
              && (meta.Ok? && meta.value.Doc? ==> l.imageUrl == meta.value.imageUrl)
              && (!(meta.Ok? && meta.value.Doc?) ==> l.imageUrl == Some(FallbackImageUrl(raw.id)))
              && l.sellerProfile == FindProfile(r.profiles.value.users, raw.fid)
  {
  }

  /** One listing's metadata outcome never changes any other listing's record. */
  lemma MetadataIsolation(items: seq<ListingData>, profiles: seq<ProfileData>,
                          metas: seq<Outcome<MetadataDoc>>, j: nat, other: Outcome<MetadataDoc>)
    requires |metas| == |items| && j < |items|
    ensures forall i :: 0 <= i < |items| && i != j ==>
              EnrichAll(items, profiles, metas[j := other])[i] == EnrichAll(items, profiles, metas)[i]
  {
  }

  /** The profile request's query for a non-empty listing set reads back as
      the unique seller identifiers. */
  lemma ProfileQueryReadsBack(items: seq<ListingData>)
    requires items != []
    ensures ParseAll(Split(CommaList(UniqueFids(items)), ',')) == Some(UniqueFids(items))
  {
    var fids := Fids(items);
    assert fids[0] in fids;
    CommaListRoundTrip(UniqueFids(items));
  }

  /** The unique seller identifiers name each listing's seller exactly once,
      name no one else, and keep the order of first appearance. */
  lemma SellersNamedOnceInOrder(items: seq<ListingData>)
    ensures forall k :: 0 <= k < |items| ==> multiset(UniqueFids(items))[items[k].fid] == 1
    ensures forall x :: x in UniqueFids(items) ==> exists k :: 0 <= k < |items| && items[k].fid == x
    ensures forall i, j :: 0 <= i < j < |UniqueFids(items)| ==>
              FirstIndex(Fids(items), UniqueFids(items)[i]) < FirstIndex(Fids(items), UniqueFids(items)[j])
  {
    var fids := Fids(items);
    DedupCountsOnce(fids);
    DedupFirstOccurrenceOrder(fids);
    forall k | 0 <= k < |items| ensures multiset(UniqueFids(items))[items[k].fid] == 1 {
      assert fids[k] == items[k].fid;
    }
  }

  /** The issued requests: the indexer first; then the profile lookup for the
      unique sellers; then, only when the lookup returned `users`, the
      metadata of every listing, by index. */
  lemma RequestsInOrder(r: Responses)
    ensures Requests(r)[0] == ListingsEndpoint
    ensures r.listings.Err? ==> |Requests(r)| == 1
    ensures r.listings.Ok? ==> |Requests(r)| >= 2 && Requests(r)[1] == ProfilesUrl(UniqueFids(r.listings.value))
    ensures r.listings.Ok? && (r.profiles.Err? || r.profiles.value.UsersMissing?) ==> |Requests(r)| == 2
    ensures r.listings.Ok? && r.profiles.Ok? && r.profiles.value.Users? ==>
              |Requests(r)| == 2 + |r.listings.value| &&
              forall i :: 0 <= i < |r.listings.value| ==>
                Requests(r)[2 + i] == MetadataUrl(r.listings.value[i].metadata)
  {
  }

  /** Two listings by one seller, one of whose metadata fetches fails: both
      are kept, in order; the first shows its document's image, the second
      its placeholder, and both carry the seller's profile. */
  lemma SharedSellerScenario(a: ListingData, b: ListingData, alice: ProfileData, x: string, failure: Thrown)
    requires a.id == 1 && b.id == 2 && a.fid == b.fid == alice.fid == 10
    ensures Load(Responses(Ok([a, b]), Ok(Users([alice])), [Ok(Doc(Some(x))), Err(failure)]))
            == Some([Extend(a, Some(x), Some(alice)),
                     Extend(b, Some("https://picsum.photos/seed/2/400/300"), Some(alice))])
  {
    assert FallbackImageUrl(2) == "https://picsum.photos/seed/2/400/300" by { assert Decimal(2) == "2"; }
    var ls := EnrichAll([a, b], [alice], [Ok(Doc(Some(x))), Err(failure)]);
    assert ls == [ls[0], ls[1]];
  }

  /** The same two listings lead to one profile request naming the seller once. */
  lemma SharedSellerRequests(a: ListingData, b: ListingData, profiles: Outcome<ProfilesReply>,
                             metas: seq<Outcome<MetadataDoc>>)
    requires a.fid == b.fid == 10 && a.metadata == "cidA" && b.metadata == "cidB"
    requires profiles.Ok? && profiles.value.Users?
    ensures Requests(Responses(Ok([a, b]), profiles, metas))
            == [ListingsEndpoint,
                "https://farcaster.anky.bot/farcaster/user/bulk?fids=10",
                "https://anky.mypinata.cloud/ipfs/cidA",
                "https://anky.mypinata.cloud/ipfs/cidB"]
  {
    assert UniqueFids([a, b]) == [10] by {
      assert Fids([a, b]) == [10, 10];
      assert Dedup([10, 10]) == [10] by {
        assert [10, 10][..1] == [10];
        assert Dedup([10]) == [10] by { assert [10][..0] == []; }
      }
    }
    assert ProfilesUrl([10]) == "https://farcaster.anky.bot/farcaster/user/bulk?fids=10" by {
      assert Decimal(10) == "10" by { assert NatDigits(10) == NatDigits(1) + [DigitChar(0)]; }
      assert CommaList([10]) == "10" by { assert DecimalAll([10]) == ["10"]; }
    }
    assert MetadataUrls([a, b]) == [MetadataUrl(a.metadata), MetadataUrl(b.metadata)] by {
      assert [a, b][1..] == [b];
    }
    assert MetadataUrl("cidA") == "https://anky.mypinata.cloud/ipfs/cidA";
    assert MetadataUrl("cidB") == "https://anky.mypinata.cloud/ipfs/cidB";
  }
}
